/**
 * `_find_builder_address`: a depth-first search of a decoded transaction for the
 * first mapping whose "builder" entry is itself a mapping with a truthy "b".
 */
module BuilderSearch {
  import opened Wrappers
  import opened JsonValue

  /** `data.get("builder")` is a mapping whose `"b"` entry is truthy. */
  predicate HasBuilderB(fields: seq<Field>) {
    var builder := Get(fields, "builder");
    && builder.Some? && builder.value.JObject?
    && var addr := Get(builder.value.fields, "b");
    addr.Some? && Truthy(addr.value)
  }

  /**
   * The mapping's own candidate: `data["builder"]["b"]` when "builder" is a
   * mapping and its "b" is truthy.
   */
  function OwnAddress(j: Json): (r: Option<Json>)
    ensures r.Some? ==> j.JObject? && Truthy(r.value)
    ensures r.Some? ==> exists inner :: Field("builder", JObject(inner)) in j.fields && Field("b", r.value) in inner
    ensures j.JObject? && HasBuilderB(j.fields) ==> r == Get(Get(j.fields, "builder").value.fields, "b")
  {
    match j
    case JObject(fields) =>
      (match Get(fields, "builder")
       case Some(JObject(inner)) =>
         (match Get(inner, "b")
          case Some(addr) => if Truthy(addr) then Some(addr) else None
          case None => None)
       case _ => None)
    case _ => None
  }

  /**
   * The search itself: a mapping's own entry first, then its values in
   * insertion order; a list's items in index order; scalars yield nothing.
   */
  function Find(j: Json): (r: Option<Json>)
    decreases j, 1
    ensures r.Some? ==> Truthy(r.value)
    ensures !j.JObject? && !j.JArray? ==> r.None?
  {
    match j
    case JObject(fields) =>
      var own := OwnAddress(j);
      if own.Some? then own else FindInFields(fields)
    case JArray(items) => FindInItems(items)
    case _ => None
  }

  /** The loop `for value in data.values()`: the first value with a hit. */
  function FindInFields(fields: seq<Field>): (r: Option<Json>)
    decreases fields, 0
    ensures r.Some? ==> Truthy(r.value)
  {
    if fields == [] then None
    else
      var hit := Find(fields[0].value);
      if hit.Some? then hit else FindInFields(fields[1..])
  }

  /** The loop `for value in data` over a list: the first item with a hit. */
  function FindInItems(items: seq<Json>): (r: Option<Json>)
    decreases items, 0
    ensures r.Some? ==> Truthy(r.value)
  {
    if items == [] then None
    else
      var hit := Find(items[0]);
      if hit.Some? then hit else FindInItems(items[1..])
  }

  // ---------------------------------------------------------------------------
  // Reference definitions: every candidate in depth-first order, and the
  // sub-values of a document.
  // ---------------------------------------------------------------------------

  /** Every truthy `builder.b` in `j`, in the order the search visits them. */
  function Candidates(j: Json): seq<Json>
    decreases j, 1
  {
    match j
    case JObject(fields) =>
      (if OwnAddress(j).Some? then [OwnAddress(j).value] else []) + FieldCandidates(fields)
    case JArray(items) => ItemCandidates(items)
    case _ => []
  }

  function FieldCandidates(fields: seq<Field>): seq<Json>
    decreases fields, 0
  {
    if fields == [] then [] else Candidates(fields[0].value) + FieldCandidates(fields[1..])
  }

  function ItemCandidates(items: seq<Json>): seq<Json>
    decreases items, 0
  {
    if items == [] then [] else Candidates(items[0]) + ItemCandidates(items[1..])
  }

  /** `s` is `j` itself or a value nested anywhere inside it. */
  ghost predicate Within(s: Json, j: Json)
    decreases j, 1
  {
    s == j ||
    match j
    case JObject(fields) => WithinFields(s, fields)
    case JArray(items) => WithinItems(s, items)
    case _ => false
  }

  ghost predicate WithinFields(s: Json, fields: seq<Field>)
    decreases fields, 0
  {
    fields != [] && (Within(s, fields[0].value) || WithinFields(s, fields[1..]))
  }

  ghost predicate WithinItems(s: Json, items: seq<Json>)
    decreases items, 0
  {
    items != [] && (Within(s, items[0]) || WithinItems(s, items[1..]))
  }

  /** The first element of a sequence, if any. */
  function First(s: seq<Json>): Option<Json> {
    if s == [] then None else Some(s[0])
  }

  // ---------------------------------------------------------------------------
  // The search returns the first candidate in depth-first order.
  // ---------------------------------------------------------------------------

  lemma {:induction false} FindIsFirstCandidate(j: Json)
    decreases j, 1
    ensures Find(j) == First(Candidates(j))
  {
    match j
    case JObject(fields) =>
      FieldsFindIsFirstCandidate(fields);
    case JArray(items) =>
      ItemsFindIsFirstCandidate(items);
    case _ =>
  }

  lemma {:induction false} FieldsFindIsFirstCandidate(fields: seq<Field>)
    decreases fields, 0
    ensures FindInFields(fields) == First(FieldCandidates(fields))
  {
    if fields != [] {
      FindIsFirstCandidate(fields[0].value);
      FieldsFindIsFirstCandidate(fields[1..]);
    }
  }

  lemma {:induction false} ItemsFindIsFirstCandidate(items: seq<Json>)
    decreases items, 0
    ensures FindInItems(items) == First(ItemCandidates(items))
  {
    if items != [] {
      FindIsFirstCandidate(items[0]);
      ItemsFindIsFirstCandidate(items[1..]);
    }
  }

  // ---------------------------------------------------------------------------
  // The candidates are exactly the `builder.b` entries found inside the input.
  // ---------------------------------------------------------------------------

  /** Soundness: every candidate is the truthy `builder.b` of a mapping inside `j`. */
  lemma {:induction false} CandidateIsWithin(j: Json, x: Json)
    decreases j, 1
    requires x in Candidates(j)
    ensures exists s :: Within(s, j) && OwnAddress(s) == Some(x)
  {
    match j
    case JObject(fields) =>
      if OwnAddress(j).Some? && x == OwnAddress(j).value {
        assert Within(j, j);
      } else {
        var s := FieldCandidateIsWithin(fields, x);
        assert Within(s, j);
      }
    case JArray(items) =>
      var s := ItemCandidateIsWithin(items, x);
      assert Within(s, j);
  }

  lemma {:induction false} FieldCandidateIsWithin(fields: seq<Field>, x: Json) returns (s: Json)
    decreases fields, 0
    requires x in FieldCandidates(fields)
    ensures WithinFields(s, fields) && OwnAddress(s) == Some(x)
  {
    if x in Candidates(fields[0].value) {
      CandidateIsWithin(fields[0].value, x);
      s :| Within(s, fields[0].value) && OwnAddress(s) == Some(x);
    } else {
      s := FieldCandidateIsWithin(fields[1..], x);
    }
  }

  lemma {:induction false} ItemCandidateIsWithin(items: seq<Json>, x: Json) returns (s: Json)
    decreases items, 0
    requires x in ItemCandidates(items)
    ensures WithinItems(s, items) && OwnAddress(s) == Some(x)
  {
    if x in Candidates(items[0]) {
      CandidateIsWithin(items[0], x);
      s :| Within(s, items[0]) && OwnAddress(s) == Some(x);
    } else {
      s := ItemCandidateIsWithin(items[1..], x);
    }
  }

  /** Completeness: the `builder.b` of every mapping inside `j` is a candidate. */
  lemma {:induction false} WithinIsCandidate(j: Json, s: Json)
    decreases j, 1
    requires Within(s, j) && OwnAddress(s).Some?
    ensures OwnAddress(s).value in Candidates(j)
  {
    if s != j {
      match j
      case JObject(fields) =>
        WithinFieldsIsCandidate(fields, s);
      case JArray(items) =>
        WithinItemsIsCandidate(items, s);
    }
  }

  lemma {:induction false} WithinFieldsIsCandidate(fields: seq<Field>, s: Json)
    decreases fields, 0
    requires WithinFields(s, fields) && OwnAddress(s).Some?
    ensures OwnAddress(s).value in FieldCandidates(fields)
  {
    if Within(s, fields[0].value) {
      WithinIsCandidate(fields[0].value, s);
    } else {
      WithinFieldsIsCandidate(fields[1..], s);
    }
  }

  lemma {:induction false} WithinItemsIsCandidate(items: seq<Json>, s: Json)
    decreases items, 0
    requires WithinItems(s, items) && OwnAddress(s).Some?
    ensures OwnAddress(s).value in ItemCandidates(items)
  {
    if Within(s, items[0]) {
      WithinIsCandidate(items[0], s);
    } else {
      WithinItemsIsCandidate(items[1..], s);
    }
  }

  /**
   * What the search promises its caller: a hit is the `builder.b` of some
   * mapping inside the input, and there is no hit exactly when no mapping
   * inside the input has a truthy `builder.b`.
   */
  lemma FindSpec(j: Json)
    ensures Find(j).Some? ==> exists s :: Within(s, j) && OwnAddress(s) == Find(j)
    ensures Find(j).None? <==> forall s :: Within(s, j) ==> OwnAddress(s).None?
  {
    FindIsFirstCandidate(j);
    if Find(j).Some? {
      CandidateIsWithin(j, Find(j).value);
    } else {
      forall s | Within(s, j) ensures OwnAddress(s).None? {
        if OwnAddress(s).Some? {
          WithinIsCandidate(j, s);
        }
      }
    }
  }
}
