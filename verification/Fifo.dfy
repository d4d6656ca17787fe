/**
 * The FIFO lot matcher. Quantities and prices are whole numbers of the
 * millionths their columns store, so a lot is spent exactly when it reaches 0.
 */
module Fifo {
  import opened Seqs
  import opened Text

  datatype Instruction = BUY | SELL
  datatype Effect = OPENING | CLOSING
  datatype Source = MANUAL_LIVE | MANUAL_PAPER | BOT_LIVE | BOT_PAPER
  datatype Direction = LONG | SHORT

  /** `id` is the fill's uuid, as its place in the collation order of uuids. */
  datatype Fill = Fill(
    id: int, symbol: string, instruction: Instruction, quantity: int, price: int,
    time: int, effect: Option<Effect>, source: Option<Source>)

  datatype Lot = Lot(fillId: int, remaining: int, price: int, openedAt: int, direction: Direction)

  datatype Match = Match(
    symbol: string, direction: Direction, quantity: int, openPrice: int, closePrice: int,
    openedAt: int, closedAt: int, realizedPnl: int, openFillId: int, closeFillId: int,
    source: string)

  /** What the loop over one key stamps on its matches. */
  datatype Tag = Tag(symbol: string, source: string, mult: int)

  // ----- Pure pieces -----

  function SignedQty(fill: Fill): int {
    var qty := Abs(fill.quantity);
    match fill.effect
    case Some(OPENING) => if fill.instruction == SELL then -qty else qty
    case Some(CLOSING) => if fill.instruction == BUY then qty else -qty
    case None => if fill.instruction == BUY then qty else -qty
  }

  /** The documented override has no effect: the sign is the instruction's, whatever the hint. */
  lemma EffectNeverChangesSign(fill: Fill, effect: Option<Effect>)
    ensures SignedQty(fill.(effect := effect)) == SignedQty(fill)
    ensures SignedQty(fill) == if fill.instruction == BUY then Abs(fill.quantity) else -Abs(fill.quantity)
  {
  }

  predicate IsWhitespace(c: char) {
    c in "\t\n\r " || c == '\U{000B}' || c == '\U{000C}' || c == '\U{00A0}' || c == '\U{1680}'
    || '\U{2000}' <= c <= '\U{200A}' || c in {'\U{2028}', '\U{2029}', '\U{202F}', '\U{205F}', '\U{3000}', '\U{FEFF}'}
  }

  predicate OsiAt(s: string, i: nat) {
    && i + 15 <= |s|
    && (forall k :: i <= k < i + 6 ==> IsDigit(s[k]))
    && s[i + 6] in "CP"
    && (forall k :: i + 7 <= k < i + 15 ==> IsDigit(s[k]))
  }

  function Visible(): char -> bool {
    (c: char) => !IsWhitespace(c)
  }

  function ContractMultiplier(symbol: string): int {
    var bare := Filter(symbol, Visible());
    if exists i | 0 <= i < |bare| :: OsiAt(bare, i) then 100 else 1
  }

  function SourceName(s: Source): string {
    match s
    case MANUAL_LIVE => "MANUAL_LIVE"
    case MANUAL_PAPER => "MANUAL_PAPER"
    case BOT_LIVE => "BOT_LIVE"
    case BOT_PAPER => "BOT_PAPER"
  }

  function SourceOf(fill: Fill): Source {
    if fill.source.Some? then fill.source.value else MANUAL_LIVE
  }

  function KeyOf(fill: Fill): string {
    fill.symbol + "::" + SourceName(SourceOf(fill))
  }

  /** Index of the first "::" at or after `from`, or the length when there is none. */
  function FindSeparator(s: string, from: nat): (i: nat)
    requires from <= |s|
    ensures from <= i <= |s|
    ensures i < |s| ==> i + 1 < |s| && s[i] == ':' && s[i + 1] == ':'
    ensures forall k :: from <= k < i && k + 1 < |s| ==> !(s[k] == ':' && s[k + 1] == ':')
    decreases |s| - from
  {
    if from + 1 >= |s| then |s|
    else if s[from] == ':' && s[from + 1] == ':' then from
    else FindSeparator(s, from + 1)
  }

  /** `key.split('::')` keeps the first two pieces; an empty or missing source falls back. */
  function SplitKey(key: string): Tag {
    var i := FindSeparator(key, 0);
    var symbol := key[..i];
    var raw := if i == |key| then "" else key[i + 2..FindSeparator(key, i + 2)];
    Tag(symbol, if raw == "" then "MANUAL_LIVE" else raw, ContractMultiplier(symbol))
  }

  // ----- One key: lots and matches -----

  datatype Absorbed = Absorbed(lots: seq<Lot>, remaining: int, matches: seq<Match>)

  predicate SameDirection(lot: Lot, remaining: int) {
    (lot.direction == LONG && remaining > 0) || (lot.direction == SHORT && remaining < 0)
  }

  function CloseAgainst(lot: Lot, closeQty: int, fill: Fill, tag: Tag): Match {
    var pnl := if lot.direction == LONG then (fill.price - lot.price) * closeQty * tag.mult
               else (lot.price - fill.price) * closeQty * tag.mult;
    Match(tag.symbol, lot.direction, closeQty, lot.price, fill.price, lot.openedAt, fill.time,
          pnl, lot.fillId, fill.id, tag.source)
  }

  function Absorb(lots: seq<Lot>, remaining: int, fill: Fill, tag: Tag): Absorbed
    decreases |lots|, Abs(remaining)
  {
    if remaining == 0 || lots == [] || SameDirection(lots[0], remaining) then
      Absorbed(lots, remaining, [])
    else
      var closeQty := Min(Abs(remaining), lots[0].remaining);
      var left := lots[0].remaining - closeQty;
      var rest := if left <= 0 then lots[1..] else [lots[0].(remaining := left)] + lots[1..];
      var more := Absorb(rest, if remaining > 0 then remaining - closeQty else remaining + closeQty, fill, tag);
      more.(matches := [CloseAgainst(lots[0], closeQty, fill, tag)] + more.matches)
  }

  /** The queue after one match: the head is dropped or shortened. */
  function Rest(lots: seq<Lot>, remaining: int): seq<Lot>
    requires lots != []
  {
    var left := lots[0].remaining - Min(Abs(remaining), lots[0].remaining);
    if left <= 0 then lots[1..] else [lots[0].(remaining := left)] + lots[1..]
  }

  function LeftOver(lots: seq<Lot>, remaining: int): int
    requires lots != []
  {
    var closeQty := Min(Abs(remaining), lots[0].remaining);
    if remaining > 0 then remaining - closeQty else remaining + closeQty
  }

  function After(made: seq<Match>, a: Absorbed): Absorbed {
    a.(matches := made + a.matches)
  }

  function HeadMatch(lots: seq<Lot>, remaining: int, fill: Fill, tag: Tag): Match
    requires lots != []
  {
    CloseAgainst(lots[0], Min(Abs(remaining), lots[0].remaining), fill, tag)
  }

  lemma AbsorbUnfold(lots: seq<Lot>, remaining: int, fill: Fill, tag: Tag)
    requires remaining != 0 && lots != [] && !SameDirection(lots[0], remaining)
    ensures Absorb(lots, remaining, fill, tag)
         == After([HeadMatch(lots, remaining, fill, tag)],
           Absorb(Rest(lots, remaining), LeftOver(lots, remaining), fill, tag))
  {
    hide CloseAgainst;
  }

  lemma AfterTwice(made: seq<Match>, m: Match, a: Absorbed)
    ensures After(made, After([m], a)) == After(made + [m], a)
  {
    assert made + ([m] + a.matches) == made + [m] + a.matches;
  }

  lemma AbsorbStops(lots: seq<Lot>, remaining: int, fill: Fill, tag: Tag)
    requires remaining == 0 || lots == [] || SameDirection(lots[0], remaining)
    ensures Absorb(lots, remaining, fill, tag) == Absorbed(lots, remaining, [])
  {
  }

  datatype Book = Book(lots: seq<Lot>, matches: seq<Match>)

  function OpenLot(fill: Fill, remaining: int): Lot {
    Lot(fill.id, Abs(remaining), fill.price, fill.time, if remaining > 0 then LONG else SHORT)
  }

  function Apply(book: Book, fill: Fill, tag: Tag): Book {
    var a := Absorb(book.lots, SignedQty(fill), fill, tag);
    Book(if Abs(a.remaining) > 0 then a.lots + [OpenLot(fill, a.remaining)] else a.lots,
         book.matches + a.matches)
  }

  function RunKey(fills: seq<Fill>, tag: Tag): Book {
    if fills == [] then Book([], []) else Apply(RunKey(fills[..|fills| - 1], tag), fills[|fills| - 1], tag)
  }

  // ----- Every key -----

  function FillLe(): (Fill, Fill) -> bool {
    (a: Fill, b: Fill) => a.time < b.time || (a.time == b.time && a.id <= b.id)
  }

  function HasKey(key: string): Fill -> bool {
    (f: Fill) => KeyOf(f) == key
  }

  function KeyOrder(fills: seq<Fill>): seq<string> {
    if fills == [] then []
    else
      var init := KeyOrder(fills[..|fills| - 1]);
      var key := KeyOf(fills[|fills| - 1]);
      if key in init then init else init + [key]
  }

  function GroupMatches(fills: seq<Fill>, key: string): seq<Match> {
    RunKey(Sort(Filter(fills, HasKey(key)), FillLe()), SplitKey(key)).matches
  }

  function MatchesFor(fills: seq<Fill>, keys: seq<string>): seq<Match> {
    if keys == [] then []
    else MatchesFor(fills, keys[..|keys| - 1]) + GroupMatches(fills, keys[|keys| - 1])
  }

  function AllMatches(fills: seq<Fill>): seq<Match> {
    MatchesFor(fills, KeyOrder(fills))
  }

  // ----- The loops -----

  method MatchFills(fills: seq<Fill>) returns (matches: seq<Match>)
    ensures matches == AllMatches(fills)
  {
    var order, byKey := GroupFills(fills);
    hide *;
    matches := [];
    NoKeysNoMatches(fills, order);
    for k := 0 to |order|
      invariant matches == MatchesFor(fills, order[..k])
    {
      MatchesForNext(fills, order, k);
      GroupLookup(fills, order, byKey, k);
      var made := MatchGroup(byKey[order[k]], order[k]);
      matches := matches + made;
    }
    assert order[..|order|] == order;
    WholeOrder(fills, order, byKey);
  }

  lemma NoKeysNoMatches(fills: seq<Fill>, keys: seq<string>)
    ensures MatchesFor(fills, keys[..0]) == []
  {
  }

  lemma WholeOrder(fills: seq<Fill>, order: seq<string>, byKey: map<string, seq<Fill>>)
    requires Grouped(fills, order, byKey)
    ensures MatchesFor(fills, order) == AllMatches(fills)
  {
    hide KeyOrder, MatchesFor, Filter;
  }

  lemma MatchesForNext(fills: seq<Fill>, keys: seq<string>, k: nat)
    requires k < |keys|
    ensures MatchesFor(fills, keys[..k + 1]) == MatchesFor(fills, keys[..k]) + GroupMatches(fills, keys[k])
  {
    hide GroupMatches;
    assert keys[..k + 1][..k] == keys[..k];
  }

  lemma GroupLookup(fills: seq<Fill>, order: seq<string>, byKey: map<string, seq<Fill>>, k: nat)
    requires Grouped(fills, order, byKey) && k < |order|
    ensures order[k] in byKey
    ensures GroupMatches(fills, order[k]) == RunKey(Sort(byKey[order[k]], FillLe()), SplitKey(order[k])).matches
  {
    hide RunKey, SplitKey, Sort, FillLe, KeyOrder, Filter;
    assert order[k] in order;
  }

  ghost predicate Grouped(fills: seq<Fill>, order: seq<string>, byKey: map<string, seq<Fill>>) {
    && order == KeyOrder(fills)
    && (forall k :: k in order <==> k in byKey)
    && (forall k :: k in byKey ==> byKey[k] == Filter(fills, HasKey(k)))
  }

  /** The insertion-ordered Map: its keys in first-seen order, and the fills under each. */
  method GroupFills(fills: seq<Fill>) returns (order: seq<string>, byKey: map<string, seq<Fill>>)
    ensures Grouped(fills, order, byKey)
  {
    order, byKey := [], map[];
    for i := 0 to |fills|
      invariant Grouped(fills[..i], order, byKey)
    {
      var key := KeyOf(fills[i]);
      GroupStep(fills[..i], fills[i], order, byKey);
      assert fills[..i + 1] == fills[..i] + [fills[i]];
      order, byKey := NextOrder(order, byKey, key), AddTo(byKey, key, fills[i]);
    }
    assert fills[..|fills|] == fills;
  }

  function AddTo(byKey: map<string, seq<Fill>>, key: string, fill: Fill): map<string, seq<Fill>> {
    byKey[key := (if key in byKey then byKey[key] else []) + [fill]]
  }

  function NextOrder(order: seq<string>, byKey: map<string, seq<Fill>>, key: string): seq<string> {
    if key in byKey then order else order + [key]
  }

  lemma GroupStep(fills: seq<Fill>, fill: Fill, order: seq<string>, byKey: map<string, seq<Fill>>)
    requires Grouped(fills, order, byKey)
    ensures Grouped(fills + [fill], NextOrder(order, byKey, KeyOf(fill)), AddTo(byKey, KeyOf(fill), fill))
  {
    KeyOrderSnoc(fills, fill);
    var key := KeyOf(fill);
    if key !in byKey {
      AbsentKey(fills, key);
    }
    hide KeyOf, KeyOrder, Filter, HasKey;
    var next := AddTo(byKey, key, fill);
    forall k | k in next ensures next[k] == Filter(fills + [fill], HasKey(k)) {
      FilterKeySnoc(fills, fill, k);
    }
  }

  lemma KeyOrderSnoc(fills: seq<Fill>, fill: Fill)
    ensures KeyOrder(fills + [fill])
         == if KeyOf(fill) in KeyOrder(fills) then KeyOrder(fills) else KeyOrder(fills) + [KeyOf(fill)]
  {
    hide KeyOf;
    assert (fills + [fill])[..|fills|] == fills;
  }

  lemma FilterKeySnoc(fills: seq<Fill>, fill: Fill, key: string)
    ensures Filter(fills + [fill], HasKey(key))
         == if key == KeyOf(fill) then Filter(fills, HasKey(key)) + [fill] else Filter(fills, HasKey(key))
  {
    hide KeyOf, Filter;
    FilterSnoc(fills, fill, HasKey(key));
  }

  lemma AbsentKey(fills: seq<Fill>, key: string)
    requires key !in KeyOrder(fills)
    ensures Filter(fills, HasKey(key)) == []
  {
    KeyOrderCovers(fills);
    FilterNone(fills, HasKey(key));
  }

  lemma {:induction false} KeyOrderCovers(fills: seq<Fill>)
    ensures forall f :: f in fills ==> KeyOf(f) in KeyOrder(fills)
    ensures forall k :: k in KeyOrder(fills) ==> exists f :: f in fills && KeyOf(f) == k
    ensures forall i, j :: 0 <= i < j < |KeyOrder(fills)| ==> KeyOrder(fills)[i] != KeyOrder(fills)[j]
  {
    if fills != [] {
      var init, last := fills[..|fills| - 1], fills[|fills| - 1];
      assert fills == init + [last];
      KeyOrderCovers(init);
    }
  }

  method MatchGroup(group: seq<Fill>, key: string) returns (matches: seq<Match>)
    ensures matches == RunKey(Sort(group, FillLe()), SplitKey(key)).matches
  {
    matches := MatchKey(Sort(group, FillLe()), SplitKey(key));
  }

  /** One key's fills, already sorted. */
  method MatchKey(sorted: seq<Fill>, tag: Tag) returns (matches: seq<Match>)
    ensures matches == RunKey(sorted, tag).matches
  {
    var openLots: seq<Lot> := [];
    matches := [];
    for i := 0 to |sorted|
      invariant RunKey(sorted[..i], tag) == Book(openLots, matches)
    {
      var fill := sorted[i];
      var lots, remaining, made := AbsorbFill(openLots, fill, tag);
      openLots, matches := lots, matches + made;
      if Abs(remaining) > 0 {
        openLots := openLots + [OpenLot(fill, remaining)];
      }
      assert sorted[..i + 1][..i] == sorted[..i];
    }
    assert sorted[..|sorted|] == sorted;
  }

  /** The inner while loop: close against the oldest lots of the other direction. */
  method AbsorbFill(lots: seq<Lot>, fill: Fill, tag: Tag)
    returns (openLots: seq<Lot>, remaining: int, made: seq<Match>)
    ensures Absorbed(openLots, remaining, made) == Absorb(lots, SignedQty(fill), fill, tag)
  {
    openLots, remaining, made := lots, SignedQty(fill), [];
    while remaining != 0 && |openLots| > 0
      invariant Absorb(lots, SignedQty(fill), fill, tag)
             == After(made, Absorb(openLots, remaining, fill, tag))
      decreases |openLots|, Abs(remaining)
    {
      hide CloseAgainst, SignedQty, Absorb, After;
      var lot := openLots[0];
      if SameDirection(lot, remaining) { break; }
      var closeQty := Min(Abs(remaining), lot.remaining);
      var pair := CloseAgainst(lot, closeQty, fill, tag);
      AbsorbUnfold(openLots, remaining, fill, tag);
      AfterTwice(made, pair, Absorb(Rest(openLots, remaining), LeftOver(openLots, remaining), fill, tag));
      made := made + [pair];
      lot := lot.(remaining := lot.remaining - closeQty);
      openLots := if lot.remaining <= 0 then openLots[1..] else [lot] + openLots[1..];
      remaining := if remaining > 0 then remaining - closeQty else remaining + closeQty;
    }
    AbsorbStops(openLots, remaining, fill, tag);
  }
}
