/** What a match is worth: option symbols count a hundred times their points, everything else once. */
module FifoValues {
  import opened Fifo
  import opened FifoKeys
  import Osi
  import opened Seqs
  import opened Text

  /** What `\s` stands for. */
  const BLANKS: string :=
    "\t\n\r \U{000B}\U{000C}\U{00A0}\U{1680}\U{2000}\U{2001}\U{2002}\U{2003}\U{2004}\U{2005}\U{2006}\U{2007}"
    + "\U{2008}\U{2009}\U{200A}\U{2028}\U{2029}\U{202F}\U{205F}\U{3000}\U{FEFF}"

  function Unblank(): char -> bool {
    (c: char) => c !in BLANKS
  }

  function Unspaced(symbol: string): string {
    Filter(symbol, Unblank())
  }

  predicate Digits(s: string, n: nat) {
    |s| == n && forall c :: c in s ==> '0' <= c <= '9'
  }

  /** Somewhere in it, spaces aside: six digits, C or P, eight digits. */
  ghost predicate IsOption(symbol: string) {
    exists before, date, right, strike, after ::
      && Unspaced(symbol) == before + date + [right] + strike + after
      && Digits(date, 6) && (right == 'C' || right == 'P') && Digits(strike, 8)
  }

  lemma BlanksAreWhitespace(c: char)
    ensures IsWhitespace(c) <==> c in BLANKS
  {
  }

  lemma {:induction false} FiltersAgree(s: string)
    ensures Filter(s, Visible()) == Unspaced(s)
  {
    if s != "" {
      BlanksAreWhitespace(s[0]);
      FiltersAgree(s[1..]);
    }
    hide IsWhitespace;
  }

  lemma OsiPieces(s: string, i: nat)
    requires OsiAt(s, i)
    ensures i + 15 <= |s|
    ensures s == s[..i] + s[i..i + 6] + [s[i + 6]] + s[i + 7..i + 15] + s[i + 15..]
    ensures Digits(s[i..i + 6], 6) && (s[i + 6] == 'C' || s[i + 6] == 'P') && Digits(s[i + 7..i + 15], 8)
  {
  }

  lemma PiecesOsi(s: string, before: string, date: string, right: char, strike: string, after: string)
    requires s == before + date + [right] + strike + after
    requires Digits(date, 6) && (right == 'C' || right == 'P') && Digits(strike, 8)
    ensures OsiAt(s, |before|)
  {
    var i := |before|;
    forall k | i <= k < i + 6 ensures IsDigit(s[k]) {
      assert s[k] == date[k - i] && date[k - i] in date;
    }
    assert s[i + 6] == right;
    forall k | i + 7 <= k < i + 15 ensures IsDigit(s[k]) {
      assert s[k] == strike[k - i - 7] && strike[k - i - 7] in strike;
    }
  }

  lemma PiecesGiveOption(
    symbol: string, before: string, date: string, right: char, strike: string, after: string)
    requires Unspaced(symbol) == before + date + [right] + strike + after
    requires Digits(date, 6) && (right == 'C' || right == 'P') && Digits(strike, 8)
    ensures IsOption(symbol)
  {
    hide Unspaced, Digits;
  }

  /** The multiplier of every symbol. */
  lemma MultiplierExactly(symbol: string)
    ensures ContractMultiplier(symbol) == if IsOption(symbol) then 100 else 1
  {
    hide OsiAt, IsWhitespace, Digits;
    FiltersAgree(symbol);
    var bare := Unspaced(symbol);
    if exists i | 0 <= i < |bare| :: OsiAt(bare, i) {
      var i :| 0 <= i < |bare| && OsiAt(bare, i);
      OsiPieces(bare, i);
      PiecesGiveOption(symbol, bare[..i], bare[i..i + 6], bare[i + 6], bare[i + 7..i + 15], bare[i + 15..]);
    }
    if IsOption(symbol) {
      var before, date, right, strike, after :|
        && bare == before + date + [right] + strike + after
        && Digits(date, 6) && (right == 'C' || right == 'P') && Digits(strike, 8);
      PiecesOsi(bare, before, date, right, strike, after);
      assert |before| < |bare|;
    }
  }

  /** Every symbol the chain prints for a listed strike, call or put, is an option's. */
  lemma ListedOptionsCountHundredfold(
    underlying: Option<string>, expiration: string, right: Osi.Right, strike: Osi.Strike)
    requires Digits(expiration, 6) && Osi.Listed(strike)
    ensures ContractMultiplier(Osi.SymbolFor(Osi.OsiRoot(underlying), expiration, right, strike)) == 100
  {
    hide PadStart, Decimal, Osi.Listed, Osi.Thousandths, IsOption, ContractMultiplier, Osi.OsiRoot, Digits;
    var root := Osi.OsiRoot(underlying);
    var side: char := if right == 0 then 'C' else 'P';
    var p := PadStart(Decimal(Osi.Thousandths(strike)), 8);
    StrikeIsEightDigits(strike);
    assert Osi.SymbolFor(root, expiration, right, strike) == root + (expiration + [side] + p);
    TailIsOption(root, expiration, side, p);
    MultiplierExactly(root + (expiration + [side] + p));
  }

  lemma StrikeIsEightDigits(strike: Osi.Strike)
    requires Osi.Listed(strike)
    ensures Digits(PadStart(Decimal(Osi.Thousandths(strike)), 8), 8)
  {
    hide PadStart, Decimal, Osi.Listed, Osi.Thousandths;
    Osi.ThousandthsExact(strike);
    Osi.PaddedReadsBack(Osi.Thousandths(strike));
  }

  lemma TailIsOption(root: string, date: string, right: char, strike: string)
    requires Digits(date, 6) && (right == 'C' || right == 'P') && Digits(strike, 8)
    ensures IsOption(root + (date + [right] + strike))
  {
    hide Filter;
    var tail := date + [right] + strike;
    FilterConcat(root, tail, Unblank());
    TailIsVisible(date, right, strike);
    var head := Unspaced(root);
    assert head + tail == head + date + [right] + strike + "";
    PiecesGiveOption(root + tail, head, date, right, strike, "");
    hide IsOption;
  }

  lemma TailIsVisible(date: string, right: char, strike: string)
    requires Digits(date, 6) && (right == 'C' || right == 'P') && Digits(strike, 8)
    ensures var tail := date + [right] + strike; Filter(tail, Unblank()) == tail
  {
    var tail := date + [right] + strike;
    forall c | c in tail ensures Unblank()(c) {
      assert c in date || c == right || c in strike;
    }
    FilterAll(tail, Unblank());
  }

  // ----- Every match of a call -----

  /** What the position moved its way, per unit times the units. */
  function Points(m: Match): int {
    (if m.direction == LONG then m.closePrice - m.openPrice else m.openPrice - m.closePrice) * m.quantity
  }

  predicate Valued(m: Match, tag: Tag) {
    m.realizedPnl == Points(m) * tag.mult && m.symbol == tag.symbol
  }

  lemma {:induction false} AbsorbValues(lots: seq<Lot>, remaining: int, fill: Fill, tag: Tag)
    ensures forall m :: m in Absorb(lots, remaining, fill, tag).matches ==> Valued(m, tag)
    decreases |lots|, Abs(remaining)
  {
    if remaining != 0 && lots != [] && !SameDirection(lots[0], remaining) {
      AbsorbUnfold(lots, remaining, fill, tag);
      AbsorbValues(Rest(lots, remaining), LeftOver(lots, remaining), fill, tag);
      assert Valued(HeadMatch(lots, remaining, fill, tag), tag);
    }
    hide Valued;
  }

  lemma {:induction false} KeyValues(fills: seq<Fill>, tag: Tag)
    ensures forall m :: m in RunKey(fills, tag).matches ==> Valued(m, tag)
  {
    hide Valued, Absorb;
    if fills != [] {
      var init, fill := fills[..|fills| - 1], fills[|fills| - 1];
      KeyValues(init, tag);
      AbsorbValues(RunKey(init, tag).lots, SignedQty(fill), fill, tag);
    }
  }

  lemma {:induction false} MatchHasKey(fills: seq<Fill>, keys: seq<string>, m: Match)
    requires m in MatchesFor(fills, keys)
    ensures exists key :: key in keys && m in GroupMatches(fills, key)
  {
    hide GroupMatches;
    var init, last := keys[..|keys| - 1], keys[|keys| - 1];
    if m in GroupMatches(fills, last) {
      assert last in keys;
    } else {
      MatchHasKey(fills, init, m);
      var key :| key in init && m in GroupMatches(fills, key);
      assert key in keys;
    }
  }

  /** Where a fill came from, as it is written; one that does not say was made by hand. */
  predicate ComesFrom(f: Fill, source: string) {
    match f.source
    case None => source == "MANUAL_LIVE"
    case Some(MANUAL_LIVE) => source == "MANUAL_LIVE"
    case Some(MANUAL_PAPER) => source == "MANUAL_PAPER"
    case Some(BOT_LIVE) => source == "BOT_LIVE"
    case Some(BOT_PAPER) => source == "BOT_PAPER"
  }

  lemma ComesFromItsSource(f: Fill)
    ensures ComesFrom(f, SourceName(SourceOf(f)))
  {
  }

  /** A buy and a sell of one group, and the label their match carries. */
  ghost predicate MadeFrom(m: Match, o: Fill, c: Fill) {
    && o.symbol == c.symbol && (exists source :: ComesFrom(o, source) && ComesFrom(c, source)) && PairOf(m, o, c)
    && (Unambiguous(o.symbol) ==> m.symbol == o.symbol && ComesFrom(o, m.source))
  }

  /**
   * Every match of a call is made from a buy and a sell of one symbol and source, and realizes its points a
   * hundredfold exactly when it is labelled with an option symbol, once otherwise.
   */
  lemma MatchesAreValued(fills: seq<Fill>, m: Match)
    requires m in AllMatches(fills)
    ensures m.realizedPnl == Points(m) * (if IsOption(m.symbol) then 100 else 1)
    ensures exists o, c :: o in fills && c in fills && MadeFrom(m, o, c)
  {
    hide RunKey, IsOption, ContractMultiplier, KeyOrder, MatchesFor, SplitKey, KeyOf, PairOf, Filter, Sort;
    MatchHasKey(fills, KeyOrder(fills), m);
    var key :| key in KeyOrder(fills) && m in GroupMatches(fills, key);
    var sorted := Sort(Filter(fills, HasKey(key)), FillLe());
    KeyValues(sorted, SplitKey(key));
    SplitIsValued(key);
    MultiplierExactly(m.symbol);
    MatchesPairFills(sorted, SplitKey(key));
    var o, c :| o in sorted && c in sorted && PairOf(m, o, c);
    SortIsSorted(Filter(fills, HasKey(key)), FillLe());
    InSorted(Filter(fills, HasKey(key)), sorted, o);
    InSorted(Filter(fills, HasKey(key)), sorted, c);
    FilterMembers(fills, HasKey(key));
    KeysAreInjective(o, c);
    LabelIsFaithful(o);
    ComesFromItsSource(o);
    ComesFromItsSource(c);
    hide ComesFrom, SourceOf, SourceName, Unambiguous;
    assert MadeFrom(m, o, c);
  }

  lemma InSorted(fills: seq<Fill>, sorted: seq<Fill>, f: Fill)
    requires multiset(sorted) == multiset(fills) && f in sorted
    ensures f in fills
  {
    assert f in multiset(sorted);
  }

  lemma SplitIsValued(key: string)
    ensures SplitKey(key).mult == ContractMultiplier(SplitKey(key).symbol)
  {
    hide ContractMultiplier, FindSeparator;
  }
}
