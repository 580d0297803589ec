/** What the phase selection is for: on a day that runs its normal course every frame of interest is
    selected, and no other (src/production/validation/phases.rs). */
module Days {
  import opened Wrappers
  import opened MarketData
  import opened Phases

  /** How many frames each phase of a day has. */
  datatype Course = Course(opening: nat, continuous: nat, closing: nat, after: nat) {
    /** Where the continuous frames, the closing auction and the close begin. */
    function TradingAt(): nat {
      opening + 1
    }

    function AuctionAt(): nat {
      opening + 1 + continuous
    }

    function CloseAt(): nat {
      opening + 1 + continuous + closing
    }

    function Total(): nat {
      opening + 1 + continuous + closing + after
    }
  }

  /** A normal Shenzhen day: opening auction, one break, trading, closing auction, close. */
  ghost predicate NormalSz(h: seq<Frame>, c: Course) {
    && |h| == c.Total() && c.opening > 0 && c.closing > 0 && c.after > 0
    && forall k | 0 <= k < |h| ::
         h[k].status == if k < c.opening then "O0" else if k == c.opening then "B0" else if k < c.AuctionAt() then "T0"
                        else if k < c.CloseAt() then "C0" else "E0"
  }

  /** A normal Shanghai day: opening auction, its result inside the opening window, trading from
      continuous time on, closing auction, close. An old fund has no closing auction. */
  ghost predicate NormalSh(rules: Rules, h: seq<Frame>, c: Course) {
    && |h| == c.Total() && c.opening > 0 && c.after > 0
    && (if rules.historicalEtf then c.closing == 0 && c.continuous > 0 else c.closing > 0)
    && (forall k | 0 <= k < |h| ::
          h[k].status == if k < c.opening then "OCALL" else if k < c.AuctionAt() then "TRADE"
                         else if k < c.CloseAt() then "CCALL" else "CLOSE")
    && rules.openingStart <= h[c.opening].position.0 < rules.continuousStart
    && forall k | c.TradingAt() <= k < c.AuctionAt() :: h[k].position.0 >= rules.continuousStart
  }

  ghost predicate Normal(rules: Rules, h: seq<Frame>, c: Course) {
    if rules.market.Szse? then NormalSz(h, c) else NormalSh(rules, h, c)
  }

  /** The anchor that the k-th frame of a normal day is. */
  function AnchorAt(c: Course, k: nat): Option<Anchor> {
    if k == c.opening then Some(PreOpen)
    else if c.TradingAt() <= k < c.AuctionAt() then Some(Anchor.Continuous)
    else if k == c.CloseAt() then Some(MarketClose)
    else None
  }

  lemma SeenBeforeSz(h: seq<Frame>, c: Course, k: nat)
    requires NormalSz(h, c) && k <= |h|
    ensures Seen(h[..k], "T0") <==> k > c.TradingAt() && c.continuous > 0
    ensures Seen(h[..k], "C0") <==> k > c.AuctionAt()
    ensures Last(h[..k], "O0") <==> 0 < k <= c.opening
    ensures Last(h[..k], "C0") <==> c.AuctionAt() < k <= c.CloseAt()
  {
    assert forall i | 0 <= i < k :: h[..k][i] == h[i];
    if k > c.AuctionAt() {
      assert h[..k][c.AuctionAt()].status == "C0";
    }
    if k > c.TradingAt() && c.continuous > 0 {
      assert h[..k][c.TradingAt()].status == "T0";
    }
  }

  lemma SeenBeforeSh(rules: Rules, h: seq<Frame>, c: Course, k: nat)
    requires NormalSh(rules, h, c) && k <= |h|
    ensures Seen(h[..k], "CCALL") <==> k > c.AuctionAt() && c.closing > 0
    ensures Reached(rules, h[..k]) <==> k > c.TradingAt() && c.continuous > 0
  {
    assert forall i | 0 <= i < k :: h[..k][i] == h[i];
    if k > c.AuctionAt() && c.closing > 0 {
      assert h[..k][c.AuctionAt()].status == "CCALL";
    }
    if k > c.TradingAt() && c.continuous > 0 {
      assert h[..k][c.TradingAt()].status == "TRADE";
    }
  }

  lemma LastBeforeSh(rules: Rules, h: seq<Frame>, c: Course, k: nat)
    requires NormalSh(rules, h, c) && k <= |h|
    ensures Last(h[..k], "OCALL") <==> 0 < k <= c.opening
    ensures Last(h[..k], "CCALL") <==> c.AuctionAt() < k <= c.CloseAt()
    ensures Last(h[..k], "TRADE") <==> c.opening < k <= c.AuctionAt()
  {
    if k > 0 {
      assert h[..k][k - 1] == h[k - 1];
    }
  }

  lemma SeenBefore(rules: Rules, h: seq<Frame>, c: Course, k: nat)
    requires Normal(rules, h, c) && k <= |h|
    ensures rules.market.Szse? ==>
      && (Seen(h[..k], "T0") <==> k > c.TradingAt() && c.continuous > 0) && (Seen(h[..k], "C0") <==> k > c.AuctionAt())
      && (Last(h[..k], "O0") <==> 0 < k <= c.opening) && (Last(h[..k], "C0") <==> c.AuctionAt() < k <= c.CloseAt())
    ensures rules.market.Sse? ==>
      && (Seen(h[..k], "CCALL") <==> k > c.AuctionAt() && c.closing > 0)
      && (Reached(rules, h[..k]) <==> k > c.TradingAt() && c.continuous > 0)
      && (Last(h[..k], "OCALL") <==> 0 < k <= c.opening)
      && (Last(h[..k], "CCALL") <==> c.AuctionAt() < k <= c.CloseAt())
      && (Last(h[..k], "TRADE") <==> c.opening < k <= c.AuctionAt())
  {
    hide Seen, Last, Reached, NormalSz, NormalSh;
    if rules.market.Szse? {
      SeenBeforeSz(h, c, k);
    } else {
      SeenBeforeSh(rules, h, c, k);
      LastBeforeSh(rules, h, c, k);
    }
  }

  /** Each frame could be its own anchor and no other. */
  lemma OwnAnchor(rules: Rules, h: seq<Frame>, c: Course, k: nat)
    requires Normal(rules, h, c) && k < |h|
    ensures Opens(rules, h[..k], h[k]) <==> k == c.opening
    ensures Closes(rules, h[..k], h[k]) <==> k == c.CloseAt()
  {
    hide Seen, Last, Reached;
    SeenBefore(rules, h, c, k);
  }

  lemma AnchorsBefore(rules: Rules, h: seq<Frame>, c: Course, k: nat)
    requires Normal(rules, h, c) && k <= |h|
    ensures Opened(rules, h[..k]) <==> k > c.opening
    ensures Closed(rules, h[..k]) <==> k > c.CloseAt()
  {
    hide Opens, Closes, Normal;
    CourseFits(rules, h, c);
    forall j | 0 <= j < k
      ensures Opens(rules, h[..k][..j], h[..k][j]) <==> j == c.opening
      ensures Closes(rules, h[..k][..j], h[..k][j]) <==> j == c.CloseAt()
    {
      assert h[..k][..j] == h[..j] && h[..k][j] == h[j];
      OwnAnchor(rules, h, c, j);
    }
    if k > c.opening {
      assert Opens(rules, h[..k][..c.opening], h[..k][c.opening]);
    }
    if k > c.CloseAt() {
      assert Closes(rules, h[..k][..c.CloseAt()], h[..k][c.CloseAt()]);
    }
  }

  lemma CourseFits(rules: Rules, h: seq<Frame>, c: Course)
    requires Normal(rules, h, c)
    ensures |h| == c.Total() && c.CloseAt() < |h| && c.opening < |h|
  {
  }

  /** Every frame of a normal day is selected as what it is. */
  lemma SelectedAt(rules: Rules, h: seq<Frame>, c: Course, k: nat)
    requires Normal(rules, h, c) && k < |h|
    ensures Select(rules, h[..k], h[k]) == AnchorAt(c, k)
  {
    hide Opened, Closed, Opens, Closes, Seen, Last, Reached;
    SeenBefore(rules, h, c, k);
    OwnAnchor(rules, h, c, k);
    AnchorsBefore(rules, h, c, k);
  }

  /** The times of some of the frames, in order. */
  function Times(h: seq<Frame>, lo: nat, hi: nat): seq<i64>
    requires lo <= hi <= |h|
    decreases hi - lo
  {
    if lo == hi then [] else Times(h, lo, hi - 1) + [h[hi - 1].position.0]
  }

  /** How far the trading has come behind the first `k` frames. */
  function Traded(c: Course, k: nat): nat {
    if k <= c.TradingAt() then c.TradingAt() else if k <= c.AuctionAt() then k else c.AuctionAt()
  }

  ghost predicate SelectedSoFar(rules: Rules, h: seq<Frame>, c: Course, k: nat)
    requires k <= |h| && c.AuctionAt() <= |h| && c.CloseAt() < |h|
  {
    && TimesOf(rules, false, h[..k], PreOpen) == (if k > c.opening then [h[c.opening].position.0] else [])
    && TimesOf(rules, false, h[..k], Continuous) == Times(h, c.TradingAt(), Traded(c, k))
    && TimesOf(rules, false, h[..k], MarketClose) == (if k > c.CloseAt() then [h[c.CloseAt()].position.0] else [])
  }

  lemma NothingSelected(rules: Rules, h: seq<Frame>, c: Course)
    requires c.AuctionAt() <= |h| && c.CloseAt() < |h|
    ensures SelectedSoFar(rules, h, c, 0)
  {
    assert h[..0] == [];
  }

  lemma TradedMore(h: seq<Frame>, c: Course, k: nat)
    requires c.AuctionAt() <= |h| && k < |h|
    ensures Times(h, c.TradingAt(), Traded(c, k + 1)) == Times(h, c.TradingAt(), Traded(c, k))
      + if c.TradingAt() <= k < c.AuctionAt() then [h[k].position.0] else []
  {
  }

  lemma SelectedMore(rules: Rules, h: seq<Frame>, c: Course, k: nat)
    requires c.AuctionAt() <= |h| && c.CloseAt() < |h| && k < |h|
    requires SelectedSoFar(rules, h, c, k) && Select(rules, h[..k], h[k]) == AnchorAt(c, k)
    ensures SelectedSoFar(rules, h, c, k + 1)
  {
    hide Select, TimesOf, Times;
    assert h[..k + 1] == h[..k] + [h[k]];
    TradedMore(h, c, k);
    assert Times(h, c.TradingAt(), Traded(c, k)) + [] == Times(h, c.TradingAt(), Traded(c, k));
    SelectionMore(rules, false, h[..k], h[k]);
  }

  lemma {:induction false} AllSelected(rules: Rules, h: seq<Frame>, c: Course, k: nat)
    requires Normal(rules, h, c) && k <= |h|
    ensures c.AuctionAt() <= |h| && c.CloseAt() < |h| && SelectedSoFar(rules, h, c, k)
  {
    hide Normal, Select, SelectedSoFar;
    CourseFits(rules, h, c);
    if k == 0 {
      NothingSelected(rules, h, c);
    } else {
      AllSelected(rules, h, c, k - 1);
      SelectedAt(rules, h, c, k - 1);
      SelectedMore(rules, h, c, k - 1);
    }
  }

  /** Of a normal day the selection keeps the break behind the opening auction, every trading frame in
      order, and the first frame behind the closing auction. */
  lemma NormalDay(rules: Rules, h: seq<Frame>, c: Course)
    requires Normal(rules, h, c)
    ensures c.CloseAt() < |h|
    ensures TimesOf(rules, false, h, PreOpen) == [h[c.opening].position.0]
    ensures TimesOf(rules, false, h, Continuous) == Times(h, c.TradingAt(), c.AuctionAt())
    ensures TimesOf(rules, false, h, MarketClose) == [h[c.CloseAt()].position.0]
  {
    hide Normal, TimesOf;
    CourseFits(rules, h, c);
    AllSelected(rules, h, c, |h|);
    assert h[..|h|] == h;
  }
}
