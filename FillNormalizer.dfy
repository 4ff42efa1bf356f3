/**
 * `normalize_trade`: maps a raw fill from the venue onto the ledger's trade
 * record, attributing it to a builder inline or through the transaction
 * resolver.
 */
module FillNormalizer {
  import opened Wrappers
  import opened JsonValue
  import opened Addresses
  import opened TxResolver

  datatype Side = Buy | Sell

  /**
   * A raw fill, its numeric fields already parsed; absent keys are `None`. The
   * inline builder fields keep whatever JSON value the venue sent.
   */
  datatype RawFill = RawFill(
    time: int,
    coin: string,
    side: Option<string>,
    px: real,
    sz: real,
    fee: Option<real>,
    closedPnl: Option<real>,
    builder: Option<Json>,
    builderAddress: Option<Json>,
    hash: Option<string>,
    txHash: Option<string>)

  /** The normalised trade: `builder` is the label, `builderAddress` the address. */
  datatype Trade = Trade(
    time: int,
    coin: string,
    side: Side,
    px: real,
    sz: real,
    fee: real,
    closedPnl: real,
    builder: Option<string>,
    builderAddress: Option<string>,
    hash: Option<string>)

  /** Side indicator "B" is a buy; anything else, absent included, a sell. */
  function SideOf(side: Option<string>): (r: Side)
    ensures r == Buy <==> side == Some("B")
  {
    if side == Some("B") then Buy else Sell
  }

  /**
   * The builder address carried by the fill itself, normalised: the first
   * truthy of `builder` and `builderAddress`, and only if it is a string.
   */
  function InlineAddress(fill: RawFill): Option<string> {
    NormalizeAddress(StringOf(OrValue(fill.builder, fill.builderAddress)))
  }

  /** The transaction hash: `hash`, or `txHash` when that is absent or empty. */
  function TxHashOf(fill: RawFill): Option<string> {
    OrElse(fill.hash, fill.txHash)
  }

  /**
   * The trade built from `fill`, where `resolved` is what the transaction
   * resolver returned; it is consulted only when the fill has no inline address.
   */
  function Normalize(fill: RawFill, resolved: Option<Json>): (t: Trade)
    ensures t.side == SideOf(fill.side)
    ensures t.builderAddress.Some? ==> t.builderAddress.value != "" && IsLower(t.builderAddress.value)
    ensures InlineAddress(fill).Some? ==> t.builderAddress == InlineAddress(fill)
    ensures InlineAddress(fill).None? ==> t.builderAddress == NormalizeAddress(StringOf(resolved))
    ensures t.fee == fill.fee.GetOr(0.0) && t.closedPnl == fill.closedPnl.GetOr(0.0)
    ensures t.time == fill.time && t.coin == fill.coin && t.px == fill.px && t.sz == fill.sz
    ensures t.hash == TxHashOf(fill)
  {
    var inline := InlineAddress(fill);
    var address := if inline.Some? then inline else NormalizeAddress(StringOf(resolved));
    Trade(fill.time, fill.coin, SideOf(fill.side), fill.px, fill.sz,
          fill.fee.GetOr(0.0), fill.closedPnl.GetOr(0.0),
          LabelBuilderAddress(address), address, TxHashOf(fill))
  }

  /** An inline address takes precedence: whatever the resolver says is ignored. */
  lemma InlinePrecedence(fill: RawFill, resolved: Option<Json>, resolved': Option<Json>)
    requires InlineAddress(fill).Some?
    ensures Normalize(fill, resolved) == Normalize(fill, resolved')
  {
  }

  /**
   * The label is present exactly when the address is, and is the address's
   * known name or else the address itself.
   */
  lemma LabelMatchesAddress(fill: RawFill, resolved: Option<Json>)
    ensures var t := Normalize(fill, resolved);
      && (t.builder.Some? <==> t.builderAddress.Some?)
      && (t.builderAddress.Some? && t.builderAddress.value in BuilderAddressLabels ==>
            t.builder == Some(BuilderAddressLabels[t.builderAddress.value]))
      && (t.builderAddress.Some? && t.builderAddress.value !in BuilderAddressLabels ==>
            t.builder == t.builderAddress)
  {
    var inline := InlineAddress(fill);
    var address := if inline.Some? then inline else NormalizeAddress(StringOf(resolved));
    if inline.Some? {
      NormalizeIdempotent(StringOf(OrValue(fill.builder, fill.builderAddress)));
    } else {
      NormalizeIdempotent(StringOf(resolved));
    }
    assert NormalizeAddress(address) == address;
  }

  /**
   * A trade routed by the target builder carries the label "Insilico" in
   * `builder`, not the target address.
   */
  lemma TargetTradeIsLabelled(fill: RawFill, resolved: Option<Json>)
    requires Normalize(fill, resolved).builderAddress == Some(TargetBuilderAddress)
    ensures Normalize(fill, resolved).builder == Some("Insilico")
    ensures Normalize(fill, resolved).builder != Some(TargetBuilderAddress)
  {
    TargetIsLabelled();
  }

  /**
   * The whole of `normalize_trade`: the resolver is asked only when the fill
   * has no inline address.
   */
  method NormalizeTrade(fill: RawFill, resolver: Resolver, fetch: string -> FetchResult)
    returns (t: Trade)
    requires resolver.Valid()
    modifies resolver
    ensures resolver.Valid()
    ensures InlineAddress(fill).Some? ==>
      t == Normalize(fill, None) &&
      resolver.cache == old(resolver.cache) && resolver.lookups == old(resolver.lookups)
    ensures InlineAddress(fill).None? ==>
      t == Normalize(fill, Answer(old(resolver.cache), TxHashOf(fill), fetch))
    // without an inline address, the resolver changes as `Resolve` says
    ensures InlineAddress(fill).None? && (!Present(TxHashOf(fill)) || TxHashOf(fill).value in old(resolver.cache)) ==>
      resolver.cache == old(resolver.cache) && resolver.lookups == old(resolver.lookups)
    ensures InlineAddress(fill).None? && Present(TxHashOf(fill)) && TxHashOf(fill).value !in old(resolver.cache) ==>
      var h := TxHashOf(fill).value;
      && resolver.lookups == old(resolver.lookups) + [Lookup(h, fetch(h).Ok?)]
      && resolver.cache == (if fetch(h).Ok? then old(resolver.cache)[h := Entry(fetch(h).data)] else old(resolver.cache))
  {
    var side := SideOf(fill.side);
    var txHash := TxHashOf(fill);
    var builderAddr := InlineAddress(fill);
    var resolved: Option<Json> := None;
    if builderAddr.None? {
      resolved := resolver.Resolve(txHash, fetch);
      builderAddr := NormalizeAddress(StringOf(resolved));
    }
    var builderLabel := LabelBuilderAddress(builderAddr);
    t := Trade(fill.time, fill.coin, side, fill.px, fill.sz,
               fill.fee.GetOr(0.0), fill.closedPnl.GetOr(0.0),
               builderLabel, builderAddr, txHash);
  }
}
