/** Which rows a history of saved runs logs, told by what the runs were offered and
    not by the watermark they keep.  A row is new to a run if no earlier run was
    offered the same row; a row a watermark keeps out is late if it was never offered
    before. */
module NewRows {
  import opened Basics
  import opened Watermarks

  // ---------------------------------------------- what a watermark says of the past

  /** A watermark describes all that was offered to the runs that led to it: their
      latest start, and without exception the keys that start then. */
  ghost predicate Covers(c: Clock, at: string -> Option<Time>, wm: Watermark, offered: seq<Item>) {
    && AllFaithful(c, offered) && Keyed(at, offered)
    && Floor(c, wm) == Peak(None, offered)
    && (forall k :: k in wm.keys ==> k in Keys(offered))
    && (forall y :: y in offered && Floor(c, wm) == Some(y.start.instant) ==> y.key in wm.keys)
  }

  lemma NothingCovered(c: Clock, at: string -> Option<Time>)
    ensures Covers(c, at, EMPTY, [])
  {
  }

  lemma SameKeySameStart(at: string -> Option<Time>, a: seq<Item>, x: Item)
    requires Keyed(at, a) && at(AfterNul(x.key)) == Some(x.start) && x.key in Keys(a)
    ensures exists y :: y in a && y.key == x.key && y.start == x.start
  {
    var y :| y in a && y.key == x.key;
  }

  /** A key offered in the past starts no later than the watermark, and is stored if
      it starts then. */
  lemma CoveredKey(c: Clock, at: string -> Option<Time>, wm: Watermark, offered: seq<Item>, x: Item)
    requires Covers(c, at, wm, offered) && at(AfterNul(x.key)) == Some(x.start) && x.key in Keys(offered)
    ensures Floor(c, wm).Some? && x.start.instant <= Floor(c, wm).value
    ensures x.start.instant == Floor(c, wm).value ==> x.key in wm.keys
  {
    SameKeySameStart(at, offered, x);
    var y :| y in offered && y.key == x.key && y.start == x.start;
    PeakIsMaximum(None, offered);
  }

  /** A row is new to the past and not older than any of it. */
  ghost predicate Timely(offered: seq<Item>, x: Item) {
    x.key !in Keys(offered) && NotOlder(offered, x)
  }

  ghost predicate NotOlder(offered: seq<Item>, x: Item) {
    forall y :: y in offered ==> y.start.instant <= x.start.instant
  }

  lemma NotOlderIff(offered: seq<Item>, x: Item)
    ensures NotOlder(offered, x) <==> AtOrAbove(x.start.instant, Peak(None, offered))
  {
    PeakIsMaximum(None, offered);
  }

  /** What the watermark lets through, said without it. */
  lemma WantsIffTimely(c: Clock, at: string -> Option<Time>, wm: Watermark, offered: seq<Item>, x: Item)
    requires Covers(c, at, wm, offered) && at(AfterNul(x.key)) == Some(x.start)
    ensures Wants(c, wm, x) <==> Timely(offered, x)
  {
    NotOlderIff(offered, x);
    if x.key in Keys(offered) {
      CoveredKey(c, at, wm, offered, x);
    }
  }

  lemma {:induction false} PeakConcat(floor: Option<int>, a: seq<Item>, b: seq<Item>)
    ensures Peak(floor, a + b) == Peak(Peak(floor, a), b)
  {
    if b == [] {
      assert a + b == a;
    } else {
      PeakConcat(floor, a, b[..|b| - 1]);
      assert (a + b)[..|a + b| - 1] == a + b[..|b| - 1];
    }
  }

  /** What the frozen loop leaves out does not raise the peak. */
  lemma FrozenPeak(c: Clock, at: string -> Option<Time>, wm: Watermark, offered: seq<Item>, items: seq<Item>)
    requires Covers(c, at, wm, offered) && Keyed(at, items)
    ensures Peak(Floor(c, wm), Frozen(c, wm, items)) == Peak(Floor(c, wm), items)
  {
    var floor, es := Floor(c, wm), Frozen(c, wm, items);
    FrozenAdmissible(c, wm, items);
    PeakIsMaximum(floor, es);
    PeakIsMaximum(floor, items);
    forall x | x in items
      ensures Peak(floor, es).Some? && x.start.instant <= Peak(floor, es).value
    {
      TakenOrOld(c, at, wm, offered, items, x);
    }
    assert items == [] ==> es == [];
    assert items != [] ==> items[0] in items;
  }

  /** A listed row is taken, or was offered in the past, or is older than the watermark. */
  lemma TakenOrOld(c: Clock, at: string -> Option<Time>, wm: Watermark, offered: seq<Item>, items: seq<Item>, x: Item)
    requires Covers(c, at, wm, offered) && Keyed(at, items) && x in items
    ensures x in Frozen(c, wm, items) || (exists y :: y in Frozen(c, wm, items) && y.key == x.key && y.start == x.start)
            || (Floor(c, wm).Some? && x.start.instant <= Floor(c, wm).value)
  {
    FrozenAdmissible(c, wm, items);
    if Wants(c, wm, x) {
      SameKeySameStart(at, Frozen(c, wm, items), x);
    } else if x.key in wm.keys {
      CoveredKey(c, at, wm, offered, x);
    }
  }

  /** One more saved run of the frozen loop, or of the advancing one, which leaves the
      same watermark: it then describes what that run was offered as well. */
  lemma CoversMore(c: Clock, at: string -> Option<Time>, wm: Watermark, offered: seq<Item>, items: seq<Item>)
    requires Covers(c, at, wm, offered) && AllFaithful(c, items) && Keyed(at, items)
    ensures Covers(c, at, AdvanceAll(c, wm, Frozen(c, wm, items)), offered + items)
  {
    var es := Frozen(c, wm, items);
    var after := AdvanceAll(c, wm, es);
    FrozenAdmissible(c, wm, items);
    AdvanceAllExact(c, wm, es);
    FrozenPeak(c, at, wm, offered, items);
    PeakConcat(None, offered, items);
    forall k | k in after.keys
      ensures k in Keys(offered + items)
    {
      KeysAtMembers(es, Floor(c, after));
      assert Keys(offered + items) == Keys(offered) + Keys(items);
    }
    forall y | y in offered + items && Floor(c, after) == Some(y.start.instant)
      ensures y.key in after.keys
    {
      StoredAtPeak(c, at, wm, offered, items, y);
    }
  }

  lemma StoredAtPeak(c: Clock, at: string -> Option<Time>, wm: Watermark, offered: seq<Item>, items: seq<Item>, y: Item)
    requires Covers(c, at, wm, offered) && AllFaithful(c, items) && Keyed(at, items)
    requires y in offered || y in items
    requires Floor(c, AdvanceAll(c, wm, Frozen(c, wm, items))) == Some(y.start.instant)
    ensures y.key in AdvanceAll(c, wm, Frozen(c, wm, items)).keys
  {
    var es := Frozen(c, wm, items);
    FrozenAdmissible(c, wm, items);
    AdvanceAllExact(c, wm, es);
    PeakIsMaximum(Floor(c, wm), es);
    if y.key in Keys(offered) {
      CoveredKey(c, at, wm, offered, y);
      assert wm.keys <= KeysAfter(c, wm, es);
    } else if y.key in Keys(es) {
      SameKeySameStart(at, es, y);
      KeysAtMembers(es, Some(y.start.instant));
    }
  }

  // ------------------------------------------------------------------ rows and items

  /** A row that can be read, with its key and start. */
  datatype Listed<+R> = Listed(row: R, item: Item)

  function Bare<R>(ls: seq<Listed<R>>): seq<Item> {
    if |ls| == 0 then [] else Bare(ls[..|ls| - 1]) + [ls[|ls| - 1].item]
  }

  lemma {:induction false} BareConcat<R>(a: seq<Listed<R>>, b: seq<Listed<R>>)
    ensures Bare(a + b) == Bare(a) + Bare(b)
  {
    if |b| == 0 {
      assert a + b == a;
    } else {
      BareConcat(a, b[..|b| - 1]);
      assert (a + b)[..|a + b| - 1] == a + b[..|b| - 1];
    }
  }

  lemma {:induction false} BareMembers<R>(ls: seq<Listed<R>>)
    ensures |Bare(ls)| == |ls|
    ensures forall i :: 0 <= i < |ls| ==> Bare(ls)[i] == ls[i].item
  {
    if |ls| > 0 {
      BareMembers(ls[..|ls| - 1]);
    }
  }

  lemma BareHas<R>(ls: seq<Listed<R>>, l: Listed<R>)
    requires l in ls
    ensures l.item in Bare(ls)
  {
    BareMembers(ls);
    var i :| 0 <= i < |ls| && ls[i] == l;
    assert Bare(ls)[i] == l.item;
  }

  lemma BareFrom<R>(ls: seq<Listed<R>>, x: Item) returns (l: Listed<R>)
    requires x in Bare(ls)
    ensures l in ls && l.item == x
  {
    BareMembers(ls);
    var i :| 0 <= i < |Bare(ls)| && Bare(ls)[i] == x;
    l := ls[i];
  }

  /** The rows that were not offered before, repeats included. */
  function Fresh<R(==)>(past: seq<Listed<R>>, ls: seq<Listed<R>>): seq<Listed<R>> {
    if |ls| == 0 then []
    else
      var before := Fresh(past, ls[..|ls| - 1]);
      var l := ls[|ls| - 1];
      if l in past then before else before + [l]
  }

  lemma {:induction false} FreshMembers<R>(past: seq<Listed<R>>, ls: seq<Listed<R>>)
    ensures forall l :: l in Fresh(past, ls) <==> l in ls && l !in past
  {
    if |ls| > 0 {
      FreshMembers(past, ls[..|ls| - 1]);
      assert ls == ls[..|ls| - 1] + [ls[|ls| - 1]];
    }
  }

  /** The rows a watermark lets through, repeats included. */
  function Passed<R>(c: Clock, wm: Watermark, ls: seq<Listed<R>>): seq<Listed<R>> {
    if |ls| == 0 then []
    else
      var before := Passed(c, wm, ls[..|ls| - 1]);
      var l := ls[|ls| - 1];
      if Wants(c, wm, l.item) then before + [l] else before
  }

  lemma {:induction false} PassedItems<R>(c: Clock, wm: Watermark, ls: seq<Listed<R>>)
    ensures Bare(Passed(c, wm, ls)) == WantedItems(c, wm, Bare(ls))
  {
    if |ls| > 0 {
      var n := |ls| - 1;
      PassedItems(c, wm, ls[..n]);
      assert Bare(ls)[..|Bare(ls)| - 1] == Bare(ls[..n]);
      var before := Passed(c, wm, ls[..n]);
      assert (before + [ls[n]])[..|before|] == before;
    }
  }

  /** Rows that are all new by their key and not older than any row offered before. */
  ghost predicate AllTimely(offered: seq<Item>, items: seq<Item>) {
    forall x :: x in items ==> Timely(offered, x)
  }

  /** Every row let through is new; and every new row is let through exactly when all
      of them are timely. */
  lemma {:induction false} PassedWithinFresh<R>(c: Clock, at: string -> Option<Time>, wm: Watermark,
                                                past: seq<Listed<R>>, ls: seq<Listed<R>>)
    requires Covers(c, at, wm, Bare(past)) && Keyed(at, Bare(ls))
    ensures |Passed(c, wm, ls)| <= |Fresh(past, ls)|
    ensures |Passed(c, wm, ls)| == |Fresh(past, ls)| ==> Passed(c, wm, ls) == Fresh(past, ls)
    ensures AllTimely(Bare(past), Bare(Fresh(past, ls))) ==> Passed(c, wm, ls) == Fresh(past, ls)
  {
    if |ls| > 0 {
      var n := |ls| - 1;
      var l, news := ls[n], Fresh(past, ls[..n]);
      PassedWithinFresh(c, at, wm, past, ls[..n]);
      BareHas(ls, l);
      WantsIffTimely(c, at, wm, Bare(past), l.item);
      if l in past {
        BareHas(past, l);
      } else {
        assert (news + [l])[..|news|] == news;
        assert Bare(news + [l]) == Bare(news) + [l.item];
      }
    }
  }

  // ---------------------------------------------------------------------- one run

  /** A run of the frozen loop logs each new row on its own exactly when these have
      distinct keys, none of them known, and none is older than a row offered before. */
  lemma FrozenLogsFreshIff<R>(c: Clock, at: string -> Option<Time>, wm: Watermark,
                              past: seq<Listed<R>>, ls: seq<Listed<R>>)
    requires Covers(c, at, wm, Bare(past)) && Keyed(at, Bare(ls))
    ensures
      var es, news := Frozen(c, wm, Bare(ls)), Bare(Fresh(past, ls));
      && |es| <= |news|
      && (es == news <==> DistinctKeys(news) && AllTimely(Bare(past), news))
  {
    var es, news := Frozen(c, wm, Bare(ls)), Bare(Fresh(past, ls));
    PassedAgainst(c, at, wm, past, ls);
    FrozenIsNoLonger(c, wm, Bare(ls));
    FrozenIsWantedIff(c, wm, Bare(ls));
    if es == news {
      FrozenAdmissible(c, wm, Bare(ls));
      AdmissibleIsTimely(c, at, wm, Bare(past), Bare(ls), es);
    }
  }

  lemma PassedAgainst<R>(c: Clock, at: string -> Option<Time>, wm: Watermark, past: seq<Listed<R>>, ls: seq<Listed<R>>)
    requires Covers(c, at, wm, Bare(past)) && Keyed(at, Bare(ls))
    ensures
      var wanted, news := WantedItems(c, wm, Bare(ls)), Bare(Fresh(past, ls));
      |wanted| <= |news| && (AllTimely(Bare(past), news) ==> wanted == news)
  {
    PassedWithinFresh(c, at, wm, past, ls);
    PassedItems(c, wm, ls);
    BareMembers(Passed(c, wm, ls));
    BareMembers(Fresh(past, ls));
  }

  lemma AdmissibleIsTimely(c: Clock, at: string -> Option<Time>, wm: Watermark,
                           offered: seq<Item>, items: seq<Item>, es: seq<Item>)
    requires Covers(c, at, wm, offered) && Keyed(at, items)
    requires Admissible(c, wm, es) && forall x :: x in es ==> x in items
    ensures DistinctKeys(es) && AllTimely(offered, es)
  {
    forall x | x in es
      ensures Timely(offered, x)
    {
      WantsIffTimely(c, at, wm, offered, x);
    }
  }

  /** The advancing loop does so exactly when, besides, these come in time order. */
  lemma AdvancingLogsFreshIff<R>(c: Clock, at: string -> Option<Time>, wm: Watermark,
                                 past: seq<Listed<R>>, ls: seq<Listed<R>>)
    requires Covers(c, at, wm, Bare(past)) && AllFaithful(c, Bare(ls)) && Keyed(at, Bare(ls))
    ensures
      var es, news := Advancing(c, wm, Bare(ls)), Bare(Fresh(past, ls));
      && |es| <= |news|
      && (es == news <==> DistinctKeys(news) && AllTimely(Bare(past), news) && TimeOrdered(news))
  {
    var es, news := Advancing(c, wm, Bare(ls)), Bare(Fresh(past, ls));
    PassedAgainst(c, at, wm, past, ls);
    FrozenIsNoLonger(c, wm, Bare(ls));
    AdvancingAgainstFrozen(c, at, wm, Bare(ls));
    SubsequenceIsNoLonger(es, Frozen(c, wm, Bare(ls)));
    AdvancingIsWantedIff(c, at, wm, Bare(ls));
    if es == news {
      FrozenAdmissible(c, wm, Bare(ls));
      AdmissibleIsTimely(c, at, wm, Bare(past), Bare(ls), es);
    }
  }

  // ----------------------------------------------------------------- many runs

  /** All rows that some runs were offered. */
  function All<R>(listings: seq<seq<Listed<R>>>): seq<Listed<R>> {
    if |listings| == 0 then [] else All(listings[..|listings| - 1]) + listings[|listings| - 1]
  }

  /** The rows that were new to each of them, in order. */
  function New<R(==)>(listings: seq<seq<Listed<R>>>): seq<Listed<R>> {
    if |listings| == 0 then []
    else
      var n := |listings| - 1;
      New(listings[..n]) + Fresh(All(listings[..n]), listings[n])
  }

  /** No new row is older than a row that an earlier run was offered. */
  ghost predicate Punctual<R>(listings: seq<seq<Listed<R>>>) {
    |listings| == 0 ||
    var n := |listings| - 1;
    && Punctual(listings[..n])
    && forall l :: l in Fresh(All(listings[..n]), listings[n]) ==> NotOlder(Bare(All(listings[..n])), l.item)
  }

  /** Each run's new rows come in time order. */
  ghost predicate Ordered<R>(listings: seq<seq<Listed<R>>>) {
    |listings| == 0 ||
    var n := |listings| - 1;
    Ordered(listings[..n]) && TimeOrdered(Bare(Fresh(All(listings[..n]), listings[n])))
  }

  /** What is offered at all is new once. */
  lemma {:induction false} NewCoversAll<R>(listings: seq<seq<Listed<R>>>)
    ensures forall l :: l in New(listings) <==> l in All(listings)
  {
    if |listings| > 0 {
      var n := |listings| - 1;
      NewCoversAll(listings[..n]);
      FreshMembers(All(listings[..n]), listings[n]);
    }
  }

  lemma SameRowsSameKeys<R>(a: seq<Listed<R>>, b: seq<Listed<R>>)
    requires forall l :: l in a ==> l in b
    ensures Keys(Bare(a)) <= Keys(Bare(b))
  {
    forall x | x in Bare(a)
      ensures x in Bare(b)
    {
      var l := BareFrom(a, x);
      BareHas(b, l);
    }
  }

  lemma DistinctConcat(a: seq<Item>, b: seq<Item>)
    ensures DistinctKeys(a + b) <==> DistinctKeys(a) && DistinctKeys(b) && forall x :: x in b ==> x.key !in Keys(a)
  {
    var all := a + b;
    if DistinctKeys(all) {
      assert forall i :: 0 <= i < |a| ==> all[i] == a[i];
      assert forall j :: 0 <= j < |b| ==> all[|a| + j] == b[j];
      forall x | x in b
        ensures x.key !in Keys(a)
      {
        var j :| 0 <= j < |b| && b[j] == x;
        assert forall y :: y in a ==> y.key != x.key;
      }
    }
    if DistinctKeys(a) && DistinctKeys(b) && forall x :: x in b ==> x.key !in Keys(a) {
      forall i, j | 0 <= i < j < |all|
        ensures all[i].key != all[j].key
      {
        if i < |a| <= j {
          assert all[i] in a && all[j] in b;
        }
      }
    }
  }

  /** The condition for one more run, apart from that for the runs before it. */
  lemma OneMoreListing<R>(listings: seq<seq<Listed<R>>>, ls: seq<Listed<R>>)
    ensures
      var more, news := listings + [ls], Fresh(All(listings), ls);
      && All(more) == All(listings) + ls && New(more) == New(listings) + news
      && Bare(New(more)) == Bare(New(listings)) + Bare(news)
      && (DistinctKeys(Bare(New(more))) && Punctual(more)
          <==> DistinctKeys(Bare(New(listings))) && Punctual(listings)
               && DistinctKeys(Bare(news)) && AllTimely(Bare(All(listings)), Bare(news)))
      && (Ordered(more) <==> Ordered(listings) && TimeOrdered(Bare(news)))
  {
    var more, past, news := listings + [ls], All(listings), Fresh(All(listings), ls);
    assert more[..|listings|] == listings;
    BareConcat(New(listings), news);
    DistinctConcat(Bare(New(listings)), Bare(news));
    NewCoversAll(listings);
    SameRowsSameKeys(New(listings), past);
    SameRowsSameKeys(past, New(listings));
    FreshIsTimely(past, news);
  }

  lemma FreshIsTimely<R>(past: seq<Listed<R>>, news: seq<Listed<R>>)
    ensures AllTimely(Bare(past), Bare(news))
       <==> (forall x :: x in Bare(news) ==> x.key !in Keys(Bare(past)))
            && (forall l :: l in news ==> NotOlder(Bare(past), l.item))
  {
    forall l | l in news
      ensures l.item in Bare(news)
    {
      BareHas(news, l);
    }
    forall x | x in Bare(news)
      ensures exists l :: l in news && l.item == x
    {
      var l := BareFrom(news, x);
    }
  }

  /** Two pairs of sequences, the first of each pair no longer than the second. */
  lemma BothEqual<E>(log: seq<E>, due: seq<E>, es: seq<E>, news: seq<E>)
    requires |log| <= |due| && |es| <= |news|
    ensures log + es == due + news <==> log == due && es == news
  {
    if log + es == due + news {
      assert |log + es| == |due + news|;
      assert log == (log + es)[..|log|] && due == (due + news)[..|due|];
      assert es == (log + es)[|log|..] && news == (due + news)[|due|..];
    }
  }
}
