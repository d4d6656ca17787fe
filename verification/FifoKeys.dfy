/** Which fills can meet: keys, their labels, and isolation of one (symbol, source) from the rest. */
module FifoKeys {
  import opened Seqs
  import opened Fifo
  import opened FifoLaws

  // ----- Keys tell (symbol, source) pairs apart -----

  lemma NamesHaveNoColon(source: Source)
    ensures forall c :: c in SourceName(source) ==> c != ':'
  {
  }

  function KeyText(symbol: string, source: Source): string {
    symbol + "::" + SourceName(source)
  }

  /** A key's last colon stands right before the source's name. */
  lemma LastColon(symbol: string, source: Source, i: nat)
    requires |symbol| + 1 <= i < |KeyText(symbol, source)|
    ensures KeyText(symbol, source)[i] == ':' <==> i == |symbol| + 1
  {
    NamesHaveNoColon(source);
    if i > |symbol| + 1 {
      assert KeyText(symbol, source)[i] == SourceName(source)[i - |symbol| - 2];
    }
  }

  lemma LengthsAgree(s: string, a: Source, t: string, b: Source)
    requires |s| < |t|
    ensures KeyText(s, a) != KeyText(t, b)
  {
    LastColon(t, b, |t| + 1);
    if |KeyText(s, a)| == |KeyText(t, b)| {
      LastColon(s, a, |t| + 1);
    }
  }

  /** Two fills share a group exactly when they agree on symbol and on source, unset meaning MANUAL_LIVE. */
  lemma KeysAreInjective(f: Fill, g: Fill)
    ensures KeyOf(f) == KeyOf(g) <==> f.symbol == g.symbol && SourceOf(f) == SourceOf(g)
    ensures KeyOf(f) == KeyOf(g)
       <==> f.symbol == g.symbol
            && (if f.source.None? then Some(MANUAL_LIVE) else f.source)
               == (if g.source.None? then Some(MANUAL_LIVE) else g.source)
    ensures f.source.None? ==> KeyOf(f) == f.symbol + "::MANUAL_LIVE"
  {
    if KeyOf(f) == KeyOf(g) {
      var key := KeyOf(f);
      assert key == KeyText(f.symbol, SourceOf(f)) == KeyText(g.symbol, SourceOf(g));
      if |f.symbol| < |g.symbol| {
        LengthsAgree(f.symbol, SourceOf(f), g.symbol, SourceOf(g));
      } else if |g.symbol| < |f.symbol| {
        LengthsAgree(g.symbol, SourceOf(g), f.symbol, SourceOf(f));
      }
      assert f.symbol == key[..|f.symbol|] == g.symbol;
      assert SourceName(SourceOf(f)) == key[|f.symbol| + 2..] == SourceName(SourceOf(g));
      NamesAreDistinct(SourceOf(f), SourceOf(g));
    }
  }

  lemma NamesAreDistinct(a: Source, b: Source)
    ensures SourceName(a) == SourceName(b) <==> a == b
  {
    assert |SourceName(a)| == |SourceName(b)| <==> a == b;
  }

  /** The symbols `split('::')` gives back: no "::" inside and no ':' at the end. */
  predicate Unambiguous(symbol: string) {
    && (symbol != "" ==> symbol[|symbol| - 1] != ':')
    && forall i :: 0 <= i && i + 1 < |symbol| ==> !(symbol[i] == ':' && symbol[i + 1] == ':')
  }

  lemma FirstSeparatorAt(s: string, from: nat, at: nat)
    requires from <= at && at + 1 < |s|
    requires s[at] == ':' && s[at + 1] == ':'
    requires forall k :: from <= k < at ==> !(s[k] == ':' && s[k + 1] == ':')
    ensures FindSeparator(s, from) == at
  {
  }

  lemma SplitUnambiguous(symbol: string, source: Source)
    requires Unambiguous(symbol)
    ensures SplitKey(KeyText(symbol, source)).symbol == symbol
    ensures SplitKey(KeyText(symbol, source)).source == SourceName(source)
  {
    var key := KeyText(symbol, source);
    SeparatorAfterSymbol(symbol, source);
    NoSeparatorAfter(key, symbol, source);
    assert key[..|symbol|] == symbol && key[|symbol| + 2..|key|] == SourceName(source);
    hide ContractMultiplier, FindSeparator, KeyText;
  }

  lemma SeparatorAfterSymbol(symbol: string, source: Source)
    requires Unambiguous(symbol)
    ensures FindSeparator(KeyText(symbol, source), 0) == |symbol|
  {
    var key, n := KeyText(symbol, source), |symbol|;
    assert key[..n] == symbol;
    forall k | 0 <= k < n ensures !(key[k] == ':' && key[k + 1] == ':') {
      assert key[k] == symbol[k];
      if k + 1 < n {
        assert key[k + 1] == symbol[k + 1];
      }
    }
    FirstSeparatorAt(key, 0, n);
  }

  lemma NoSeparatorAfter(key: string, symbol: string, source: Source)
    requires key == KeyText(symbol, source)
    ensures FindSeparator(key, |symbol| + 2) == |key|
  {
    var j := FindSeparator(key, |symbol| + 2);
    if j < |key| {
      LastColon(symbol, source, j);
    }
  }

  lemma SplitAmbiguous(symbol: string, source: Source)
    requires !Unambiguous(symbol)
    ensures |SplitKey(KeyText(symbol, source)).symbol| < |symbol|
  {
    var key := KeyText(symbol, source);
    var n := |symbol|;
    assert key[..n] == symbol;
    if symbol != "" && symbol[n - 1] == ':' {
      assert key[n - 1] == ':' && key[n] == ':';
      assert FindSeparator(key, 0) <= n - 1;
    } else {
      var k :| 0 <= k && k + 1 < n && symbol[k] == ':' && symbol[k + 1] == ':';
      assert key[k] == ':' && key[k + 1] == ':';
      assert FindSeparator(key, 0) <= k;
    }
  }

  /** A match carries its fills' symbol and source exactly when the symbol is unambiguous. */
  lemma LabelIsFaithful(f: Fill)
    ensures (SplitKey(KeyOf(f)).symbol == f.symbol && SplitKey(KeyOf(f)).source == SourceName(SourceOf(f)))
            <==> Unambiguous(f.symbol)
  {
    assert KeyOf(f) == KeyText(f.symbol, SourceOf(f));
    if Unambiguous(f.symbol) {
      SplitUnambiguous(f.symbol, SourceOf(f));
    } else {
      SplitAmbiguous(f.symbol, SourceOf(f));
    }
  }

  /** Where it fails: fills on the symbol `p::q` are reported as symbol p of source q. */
  lemma LabelCanMislead(f: Fill, p: string, q: string)
    requires f.symbol == p + "::" + q && q != ""
    requires forall c :: c in p || c in q ==> c != ':'
    ensures SplitKey(KeyOf(f)).symbol == p && SplitKey(KeyOf(f)).source == q
  {
    var key := KeyOf(f);
    assert key == p + "::" + q + "::" + SourceName(SourceOf(f));
    assert key[..|p|] == p && key[|p| + 2..|f.symbol|] == q;
    assert key[|p|] == ':' && key[|p| + 1] == ':';
    forall k | 0 <= k < |p| ensures key[k] != ':' {
      assert key[k] == p[k] && p[k] in p;
    }
    FirstSeparatorAt(key, 0, |p|);
    assert key[|f.symbol|] == ':' && key[|f.symbol| + 1] == ':';
    forall k | |p| + 2 <= k < |f.symbol| ensures key[k] != ':' {
      assert key[k] == q[k - |p| - 2] && q[k - |p| - 2] in q;
    }
    FirstSeparatorAt(key, |p| + 2, |f.symbol|);
  }

  // ----- Matches pair fills of one key -----

  ghost predicate Pairs(m: Match, fills: seq<Fill>) {
    exists o, c :: o in fills && c in fills && PairOf(m, o, c)
  }

  /** An opener and a closer of opposite instructions, and what each recorded. */
  ghost predicate PairOf(m: Match, o: Fill, c: Fill) {
    && (o.id, o.price, o.time) == (m.openFillId, m.openPrice, m.openedAt)
    && (c.id, c.price, c.time) == (m.closeFillId, m.closePrice, m.closedAt)
    && (m.direction == LONG ==> o.instruction == BUY && c.instruction == SELL)
    && (m.direction == SHORT ==> o.instruction == SELL && c.instruction == BUY)
    && 0 < m.quantity <= Abs(o.quantity) && m.quantity <= Abs(c.quantity)
  }

  ghost predicate LotFrom(l: Lot, f: Fill) {
    && (f.id, f.price, f.time) == (l.fillId, l.price, l.openedAt)
    && (f.instruction == BUY <==> l.direction == LONG)
    && 0 < l.remaining <= Abs(f.quantity)
  }

  ghost predicate LotsFrom(lots: seq<Lot>, fills: seq<Fill>) {
    forall l :: l in lots ==> exists f :: f in fills && LotFrom(l, f)
  }

  lemma {:induction false} AbsorbPairs(lots: seq<Lot>, remaining: int, fill: Fill, tag: Tag, fills: seq<Fill>)
    requires LotsFrom(lots, fills)
    requires Abs(remaining) <= Abs(fill.quantity)
    requires remaining > 0 ==> fill.instruction == BUY
    requires remaining < 0 ==> fill.instruction == SELL
    ensures var a := Absorb(lots, remaining, fill, tag);
      && LotsFrom(a.lots, fills)
      && Abs(a.remaining) <= Abs(fill.quantity)
      && (a.remaining > 0 ==> fill.instruction == BUY)
      && (a.remaining < 0 ==> fill.instruction == SELL)
      && (forall m :: m in a.matches ==> Pairs(m, fills + [fill]) && m.symbol == tag.symbol && m.source == tag.source)
    decreases |lots|, Abs(remaining)
  {
    if remaining != 0 && lots != [] && !SameDirection(lots[0], remaining) {
      var rest, left := Rest(lots, remaining), LeftOver(lots, remaining);
      var m := CloseAgainst(lots[0], Min(Abs(remaining), lots[0].remaining), fill, tag);
      assert lots[0] in lots;
      var o :| o in fills && LotFrom(lots[0], o);
      assert PairOf(m, o, fill);
      assert o in fills + [fill] && fill in fills + [fill];
      assert LotsFrom(rest, fills) by {
        forall l | l in rest ensures exists f :: f in fills && LotFrom(l, f) {
          if l !in lots {
            assert LotFrom(l, o);
          }
        }
      }
      AbsorbPairs(rest, left, fill, tag, fills);
    }
  }

  /** Every match joins a buy and a sell from the same list, with their own ids, prices and times. */
  lemma {:induction false} MatchesPairFills(fills: seq<Fill>, tag: Tag)
    ensures var b := RunKey(fills, tag);
      && LotsFrom(b.lots, fills)
      && (forall m :: m in b.matches ==> Pairs(m, fills) && m.symbol == tag.symbol && m.source == tag.source)
  {
    if fills != [] {
      var init, fill := fills[..|fills| - 1], fills[|fills| - 1];
      assert fills == init + [fill];
      MatchesPairFills(init, tag);
      var b := RunKey(init, tag);
      var a := Absorb(b.lots, SignedQty(fill), fill, tag);
      AbsorbPairs(b.lots, SignedQty(fill), fill, tag, init);
      forall l | l in RunKey(fills, tag).lots ensures exists f :: f in fills && LotFrom(l, f) {
        if l in a.lots {
          var f :| f in init && LotFrom(l, f);
          assert f in fills;
        } else {
          assert LotFrom(l, fill) && fill in fills;
        }
      }
      forall m | m in b.matches ensures Pairs(m, fills) {
        var o, c :| o in init && c in init && PairOf(m, o, c);
        assert o in fills && c in fills;
      }
    }
  }

  // ----- Isolation over the whole call -----

  function Marked(symbol: string, source: string): Match -> bool {
    (m: Match) => m.symbol == symbol && m.source == source
  }

  /**
   * What the loop over a fill's key makes is what a call with that key's fills alone makes, whatever else was
   * in the call.
   */
  lemma GroupsAreIsolated(fills: seq<Fill>, f: Fill)
    requires f in fills
    ensures GroupMatches(fills, KeyOf(f)) == AllMatches(Filter(fills, HasKey(KeyOf(f))))
  {
    var key := KeyOf(f);
    FilterMembers(fills, HasKey(key));
    OneGroup(Filter(fills, HasKey(key)), key);
    FilterAll(Filter(fills, HasKey(key)), HasKey(key));
    hide RunKey, MatchesFor, KeyOrder;
  }

  /** The label a fill's matches carry is its own symbol and source, and no other key of the call has it. */
  predicate OwnLabel(fills: seq<Fill>, f: Fill) {
    forall g :: g in fills ==>
      (SplitKey(KeyOf(g)).symbol == f.symbol && SplitKey(KeyOf(g)).source == SourceName(SourceOf(f))
       <==> KeyOf(g) == KeyOf(f))
  }

  /** Symbols without "::" or a trailing colon leave every label to one key. */
  lemma UnambiguousLabels(fills: seq<Fill>, f: Fill)
    requires f in fills && forall g :: g in fills ==> Unambiguous(g.symbol)
    ensures OwnLabel(fills, f)
  {
    hide SplitKey, KeyOf, Unambiguous;
    forall g | g in fills
      ensures SplitKey(KeyOf(g)).symbol == f.symbol && SplitKey(KeyOf(g)).source == SourceName(SourceOf(f))
        <==> KeyOf(g) == KeyOf(f)
    {
      LabelIsFaithful(g);
      KeysAreInjective(f, g);
      NamesAreDistinct(SourceOf(f), SourceOf(g));
    }
  }

  /** So the matches labelled with a (symbol, source) are those of its own fills, if the label is that key's alone. */
  lemma MatchesAreIsolated(fills: seq<Fill>, f: Fill)
    requires f in fills && OwnLabel(fills, f)
    ensures Filter(AllMatches(fills), Marked(f.symbol, SourceName(SourceOf(f))))
         == AllMatches(Filter(fills, HasKey(KeyOf(f))))
  {
    hide SplitKey, KeyOf, Filter, MatchesFor, GroupMatches;
    var key := KeyOf(f);
    KeyOrderCovers(fills);
    var keys := KeyOrder(fills);
    forall k | k in keys
      ensures k == key <==> SplitKey(k).symbol == f.symbol && SplitKey(k).source == SourceName(SourceOf(f))
    {
      var g :| g in fills && KeyOf(g) == k;
    }
    OnlyOneKey(fills, keys, key, f.symbol, SourceName(SourceOf(f)));
    GroupsAreIsolated(fills, f);
  }

  lemma {:induction false} OnlyOneKey(fills: seq<Fill>, keys: seq<string>, key: string, symbol: string, source: string)
    requires forall i, j :: 0 <= i < j < |keys| ==> keys[i] != keys[j]
    requires forall k :: k in keys ==> (k == key <==> SplitKey(k).symbol == symbol && SplitKey(k).source == source)
    ensures Filter(MatchesFor(fills, keys), Marked(symbol, source))
         == if key in keys then GroupMatches(fills, key) else []
  {
    hide SplitKey, GroupMatches;
    if keys != [] {
      var init, last := keys[..|keys| - 1], keys[|keys| - 1];
      assert keys == init + [last];
      assert last in keys;
      OnlyOneKey(fills, init, key, symbol, source);
      FilterConcat(MatchesFor(fills, init), GroupMatches(fills, last), Marked(symbol, source));
      GroupIsMarked(fills, last, symbol, source);
      if key in init {
        assert last != key;
      }
    }
  }

  lemma GroupIsMarked(fills: seq<Fill>, key: string, symbol: string, source: string)
    ensures Filter(GroupMatches(fills, key), Marked(symbol, source))
         == if SplitKey(key).symbol == symbol && SplitKey(key).source == source then GroupMatches(fills, key) else []
  {
    MatchesPairFills(Sort(Filter(fills, HasKey(key)), FillLe()), SplitKey(key));
    if SplitKey(key).symbol == symbol && SplitKey(key).source == source {
      FilterAll(GroupMatches(fills, key), Marked(symbol, source));
    } else {
      FilterNone(GroupMatches(fills, key), Marked(symbol, source));
    }
  }

  /** A list of fills that all share one key is matched as that key. */
  lemma OneGroup(fills: seq<Fill>, key: string)
    requires fills != []
    requires forall f :: f in fills ==> KeyOf(f) == key
    ensures AllMatches(fills) == GroupMatches(fills, key)
  {
    OneKeyInOrder(fills, key);
    hide GroupMatches;
    assert [key][..0] == [];
    assert MatchesFor(fills, [key]) == MatchesFor(fills, []) + GroupMatches(fills, key);
  }

  lemma OneKeyInOrder(fills: seq<Fill>, key: string)
    requires fills != []
    requires forall f :: f in fills ==> KeyOf(f) == key
    ensures KeyOrder(fills) == [key]
  {
    var keys := KeyOrder(fills);
    assert fills[0] in fills;
    KeyOrderCovers(fills);
    forall i | 0 <= i < |keys| ensures keys[i] == key {
      assert keys[i] in keys;
    }
  }

  // ----- What one group of an unsorted call comes to -----

  lemma GroupIsSorted(fills: seq<Fill>, key: string)
    ensures SortedFills(Sort(Filter(fills, HasKey(key)), FillLe()))
  {
    SortIsSorted(Filter(fills, HasKey(key)), FillLe());
  }

  /** The matches of a group are used up oldest opener first, and none closes before it opened. */
  lemma GroupIsOldestFirst(fills: seq<Fill>, key: string)
    ensures Ordered(OpenerKeys(GroupMatches(fills, key)))
    ensures forall m :: m in GroupMatches(fills, key) ==> m.openedAt <= m.closedAt
    ensures |Filter(fills, HasKey(key))| > 0 ==> |GroupMatches(fills, key)| < |Filter(fills, HasKey(key))|
  {
    var group := Filter(fills, HasKey(key));
    var sorted := Sort(group, FillLe());
    GroupIsSorted(fills, key);
    OldestLotFirst(sorted, SplitKey(key));
    var b := RunKey(sorted, SplitKey(key));
    assert OpenerKeys(b.matches) == Trail(b.matches, b.lots)[..|b.matches|];
    SortIsSorted(group, FillLe());
    assert |multiset(sorted)| == |multiset(group)|;
    if |group| > 0 {
      MatchesAreBounded(sorted, SplitKey(key));
    }
  }

  /** A group that nets to zero realizes its cash, in whatever order the call listed it. */
  lemma FlatGroupRealizesItsCash(fills: seq<Fill>, key: string)
    requires SumOf(Filter(fills, HasKey(key)), Signed()) == 0
    ensures SumOf(GroupMatches(fills, key), Pnl())
         == SplitKey(key).mult * (0 - SumOf(Filter(fills, HasKey(key)), Paid()))
  {
    var group := Filter(fills, HasKey(key));
    SumOfSort(group, FillLe(), Signed());
    SumOfSort(group, FillLe(), Paid());
    FlatPnlIgnoresPairing(Sort(group, FillLe()), SplitKey(key));
  }
}
