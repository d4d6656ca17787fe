/**
 * Option symbols: 6 characters of root, 6 of expiration, one for the right, then the strike in
 * thousandths. A strike that is printed into a symbol is read back out of it.
 */
module Osi {
  import opened Seqs
  import opened Text

  /** 0 is a call, 1 a put. */
  type Right = r: int | r == 0 || r == 1

  /** Strikes are prices. */
  type Strike = s: real | s >= 0.0

  /** A stored chain tuple. */
  datatype Row = Row(strike: Strike, right: Right, delta: Option<real>, bid: Option<real>, ask: Option<real>)

  datatype ChainQuote = ChainQuote(symbol: string, bid: Option<real>, ask: Option<real>, delta: Option<real>)

  datatype Parsed = Parsed(expiration: string, right: char, strike: real)

  // ----- Symbols -----

  function OsiRoot(underlying: Option<string>): string {
    if underlying == Some("SPXW") || underlying == Some("SPX") then "SPXW  " else "SPY   "
  }

  function Thousandths(strike: Strike): nat {
    (strike * 1000.0 + 0.5).Floor
  }

  function SymbolFor(root: string, expiration: string, right: Right, strike: Strike): string {
    root + expiration + (if right == 0 then "C" else "P") + PadStart(Decimal(Thousandths(strike)), 8)
  }

  function StrikeOf(symbol: string): Option<real> {
    match ReadNumber(Slice(symbol, 13, 21))
    case None => None
    case Some(n) => Some(n as real / 1000.0)
  }

  function ParseOsi(symbol: string): Option<Parsed> {
    if |symbol| != 21 then None
    else if !AllDigits(symbol[6..12]) || (symbol[12] != 'C' && symbol[12] != 'P')
      || !AllDigits(symbol[13..21]) then None
    else Some(Parsed(symbol[6..12], symbol[12], Value(symbol[13..21]) as real / 1000.0))
  }

  function QuoteFrom(r: Row, root: string, expiration: string): ChainQuote {
    ChainQuote(SymbolFor(root, expiration, r.right, r.strike), r.bid, r.ask, r.delta)
  }

  function QuotesFromSnapshot(rows: seq<Row>, expiration: string, underlying: Option<string>): (quotes: seq<ChainQuote>)
    ensures |quotes| == |rows|
    ensures forall i :: 0 <= i < |rows| ==> quotes[i] == QuoteFrom(rows[i], OsiRoot(underlying), expiration)
  {
    seq(|rows|, i requires 0 <= i < |rows| => QuoteFrom(rows[i], OsiRoot(underlying), expiration))
  }

  /** A rebuilt chain has a quote a row, in order, with the row's own prices and delta. */
  lemma QuotesAreTheirRows(rows: seq<Row>, expiration: string, underlying: Option<string>, i: nat)
    requires i < |rows|
    ensures var quotes := QuotesFromSnapshot(rows, expiration, underlying);
      && |quotes| == |rows|
      && quotes[i].bid == rows[i].bid && quotes[i].ask == rows[i].ask && quotes[i].delta == rows[i].delta
      && quotes[i].symbol == SymbolFor(OsiRoot(underlying), expiration, rows[i].right, rows[i].strike)
  {
    hide SymbolFor;
  }

  // ----- Looking one contract up -----

  predicate Lists(r: Row, strike: Option<real>, right: Right) {
    strike == Some(r.strike) && r.right == right
  }

  /** The bid of the first tuple with this strike and right. */
  function FirstBid(rows: seq<Row>, strike: Option<real>, right: Right): Option<real> {
    if rows == [] then None
    else if Lists(rows[0], strike, right) then rows[0].bid
    else FirstBid(rows[1..], strike, right)
  }

  method BidFor(rows: seq<Row>, strike: Option<real>, right: Right) returns (bid: Option<real>)
    ensures bid == FirstBid(rows, strike, right)
  {
    for i := 0 to |rows|
      invariant FirstBid(rows, strike, right) == FirstBid(rows[i..], strike, right)
    {
      assert rows[i..][1..] == rows[i + 1..];
      if Lists(rows[i], strike, right) {
        return rows[i].bid;
      }
    }
    return None;
  }

  /** The slow way: the bid of the first rebuilt quote that carries the symbol. */
  function QuotedBid(quotes: seq<ChainQuote>, symbol: string): Option<real> {
    if quotes == [] then None
    else if quotes[0].symbol == symbol then quotes[0].bid
    else QuotedBid(quotes[1..], symbol)
  }

  // ----- Printing and reading strikes -----

  const LIMIT: nat := 100_000_000

  lemma PaddedReadsBack(n: nat)
    ensures AllDigits(PadStart(Decimal(n), 8))
    ensures |PadStart(Decimal(n), 8)| >= 8
    ensures |PadStart(Decimal(n), 8)| == 8 <==> n < LIMIT
    ensures Value(PadStart(Decimal(n), 8)[..8]) < LIMIT
    ensures n < LIMIT ==> Value(PadStart(Decimal(n), 8)[..8]) == n
  {
    var s := Decimal(n);
    DecimalReadsBack(n);
    DecimalWidth(n, 8);
    assert Pow10(8) == LIMIT by {
      assert Pow10(2) == 100;
      assert Pow10(5) == 100_000;
    }
    if |s| < 8 {
      ZerosReadAsNothing(8 - |s|, s);
    }
    var p := PadStart(s, 8);
    ValueIsBounded(p[..8]);
    if |p| == 8 {
      assert p[..8] == p;
    }
  }

  /** A strike the symbol has room for: whole thousandths, below 100000. */
  predicate Listed(strike: Strike) {
    strike < 100_000.0 && (strike * 1000.0).Floor as real == strike * 1000.0
  }

  lemma FloorOfWhole(m: int)
    ensures (m as real).Floor == m && (m as real + 0.5).Floor == m
  {
  }

  lemma WholeRoundsToItself(x: real, k: int)
    requires k == (x + 0.5).Floor
    ensures x.Floor as real == x <==> k as real == x
  {
    FloorOfWhole(k);
    FloorOfWhole(x.Floor);
  }

  lemma RoundIsNear(x: real)
    ensures x - 0.5 < (x + 0.5).Floor as real <= x + 0.5
  {
  }

  lemma ThousandthsExact(strike: Strike)
    ensures Listed(strike) <==> Thousandths(strike) < LIMIT && Thousandths(strike) as real / 1000.0 == strike
    ensures Thousandths(strike) >= LIMIT ==> strike * 1000.0 >= LIMIT as real - 0.5
  {
    var k := Thousandths(strike);
    RoundIsNear(strike * 1000.0);
    WholeRoundsToItself(strike * 1000.0, k);
    assert k as real / 1000.0 == strike <==> k as real == strike * 1000.0;
    assert k < LIMIT <==> k as real < 100_000_000.0;
  }

  lemma SymbolParts(root: string, expiration: string, right: Right, strike: Strike)
    requires |root| == 6 && |expiration| == 6
    ensures var s := SymbolFor(root, expiration, right, strike);
      var p := PadStart(Decimal(Thousandths(strike)), 8);
      && |s| == 13 + |p| && |p| >= 8
      && s[6..12] == expiration
      && s[12] == (if right == 0 then 'C' else 'P')
      && s[13..] == p && s[13..21] == p[..8]
  {
    PaddedReadsBack(Thousandths(strike));
  }

  /** Reading the strike out of a printed symbol gives it back exactly for the strikes the symbol has room for. */
  lemma StrikeReadsBackExactly(root: string, expiration: string, right: Right, strike: Strike)
    requires |root| == 6 && |expiration| == 6
    ensures StrikeOf(SymbolFor(root, expiration, right, strike)) == Some(strike) <==> Listed(strike)
  {
    hide PadStart, Decimal, Value, SymbolFor, AllDigits;
    var k := Thousandths(strike);
    var p := PadStart(Decimal(k), 8);
    SymbolParts(root, expiration, right, strike);
    PaddedReadsBack(k);
    DigitsOfSlice(p);
    ThousandthsExact(strike);
    var v := Value(p[..8]);
    assert StrikeOf(SymbolFor(root, expiration, right, strike)) == Some(v as real / 1000.0);
    if v as real / 1000.0 == strike {
      assert strike * 1000.0 == v as real <= LIMIT as real - 1.0;
    }
  }

  lemma DigitsOfSlice(p: string)
    requires AllDigits(p) && |p| >= 8
    ensures AllDigits(p[..8])
  {
  }

  /** The recorder's parser reads the same three parts back, for exactly the same strikes. */
  lemma ParseOsiReadsBackExactly(root: string, expiration: string, right: Right, strike: Strike)
    requires |root| == 6 && |expiration| == 6 && AllDigits(expiration)
    ensures ParseOsi(SymbolFor(root, expiration, right, strike))
         == Some(Parsed(expiration, if right == 0 then 'C' else 'P', strike))
       <==> Listed(strike)
  {
    hide PadStart, Decimal, Value, SymbolFor, AllDigits;
    var k := Thousandths(strike);
    var p := PadStart(Decimal(k), 8);
    SymbolParts(root, expiration, right, strike);
    PaddedReadsBack(k);
    DigitsOfSlice(p);
    ThousandthsExact(strike);
  }

  lemma PaddedIsInjective(m: nat, n: nat)
    ensures PadStart(Decimal(m), 8) == PadStart(Decimal(n), 8) <==> m == n
  {
    PaddedValue(m);
    PaddedValue(n);
  }

  lemma PaddedValue(n: nat)
    ensures AllDigits(PadStart(Decimal(n), 8)) && Value(PadStart(Decimal(n), 8)) == n
  {
    var s := Decimal(n);
    DecimalReadsBack(n);
    hide Decimal, Value, AllDigits;
    if |s| < 8 {
      ZerosReadAsNothing(8 - |s|, s);
    }
  }

  /**
   * Two contracts share a symbol exactly when they share the right and round to the same thousandth, whatever
   * the strikes.
   */
  lemma SymbolsCollideExactly(root: string, expiration: string, r: Right, a: Strike, q: Right, b: Strike)
    requires |root| == 6 && |expiration| == 6
    ensures SymbolFor(root, expiration, r, a) == SymbolFor(root, expiration, q, b)
       <==> Thousandths(a) == Thousandths(b) && r == q
  {
    hide PadStart, Decimal, Thousandths;
    SymbolParts(root, expiration, r, a);
    SymbolParts(root, expiration, q, b);
    PaddedIsInjective(Thousandths(a), Thousandths(b));
  }

  lemma SymbolsAreDistinct(root: string, expiration: string, a: Row, b: Row)
    requires |root| == 6 && |expiration| == 6
    requires Listed(a.strike) && Listed(b.strike)
    ensures SymbolFor(root, expiration, a.right, a.strike) == SymbolFor(root, expiration, b.right, b.strike)
       <==> a.strike == b.strike && a.right == b.right
  {
    hide SymbolFor, Listed;
    SymbolsCollideExactly(root, expiration, a.right, a.strike, b.right, b.strike);
    ThousandthsExact(a.strike);
    ThousandthsExact(b.strike);
    hide Thousandths;
  }

  /**
   * The fast lookup agrees with rebuilding the chain: reading the held strike back out of its symbol
   * and scanning the raw tuples finds the bid the rebuilt chain shows for that symbol.
   */
  lemma {:induction false} FastLookupAgrees(rows: seq<Row>, expiration: string, underlying: Option<string>, held: Row)
    requires |expiration| == 6 && Listed(held.strike)
    requires forall r :: r in rows ==> Listed(r.strike)
    ensures var symbol := SymbolFor(OsiRoot(underlying), expiration, held.right, held.strike);
      FirstBid(rows, StrikeOf(symbol), held.right)
        == QuotedBid(QuotesFromSnapshot(rows, expiration, underlying), symbol)
  {
    hide SymbolFor, StrikeOf, Listed;
    var root := OsiRoot(underlying);
    StrikeIsHeld(root, expiration, held);
    if rows != [] {
      FastLookupAgrees(rows[1..], expiration, underlying, held);
      SymbolsAreDistinct(root, expiration, rows[0], held);
      assert QuotesFromSnapshot(rows, expiration, underlying)[1..]
        == QuotesFromSnapshot(rows[1..], expiration, underlying);
    }
  }

  lemma StrikeIsHeld(root: string, expiration: string, held: Row)
    requires |root| == 6 && |expiration| == 6 && Listed(held.strike)
    ensures StrikeOf(SymbolFor(root, expiration, held.right, held.strike)) == Some(held.strike)
  {
    hide SymbolFor, StrikeOf;
    StrikeReadsBackExactly(root, expiration, held.right, held.strike);
  }

  /**
   * Strikes inside one thousandth share a symbol, and the held one is then looked up as the other. No chain
   * lists 5.0004: this is an input of the functions, not of the market.
   */
  lemma CloseStrikesCollide(expiration: string, held: Option<real>, other: Option<real>)
    requires |expiration| == 6
    ensures var a, b := Row(5.0, 0, None, other, None), Row(5.0004, 0, None, held, None);
      && SymbolFor("SPXW  ", expiration, 0, a.strike) == SymbolFor("SPXW  ", expiration, 0, b.strike)
      && FirstBid([a, b], StrikeOf(SymbolFor("SPXW  ", expiration, 0, b.strike)), 0) == other
  {
    hide SymbolFor, StrikeOf;
    var a, b := Row(5.0, 0, None, other, None), Row(5.0004, 0, None, held, None);
    SameThousandth(expiration);
    StrikeReadsBackExactly("SPXW  ", expiration, 0, 5.0);
  }

  lemma SameThousandth(expiration: string)
    ensures Listed(5.0)
    ensures SymbolFor("SPXW  ", expiration, 0, 5.0) == SymbolFor("SPXW  ", expiration, 0, 5.0004)
  {
    assert (5.0004 * 1000.0 + 0.5).Floor == 5000;
    assert (5.0 * 1000.0 + 0.5).Floor == 5000;
  }
}
