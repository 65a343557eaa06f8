/** Persisted watermarks: the newest start time that was ingested, plus the keys
    that were seen at exactly that time.  Both the Lens call-detail collector and
    the phone call-log collector test rows against such a record and advance it.

    Two loops share these rules.  The frozen loop tests every row against the
    watermark that was loaded; the advancing loop tests against the watermark it
    is itself moving forward.  This module relates both to order-free definitions
    (a maximum and a filter) and to each other.
 */
module Watermarks {
  import opened Basics

  /** A point in time in nanoseconds, with the offset of the zone it is shown in. */
  datatype Time = Time(instant: int, offset: int)

  /** The RFC 3339 parser and formatter. */
  datatype Clock = Clock(parse: string -> Option<Time>, format: Time -> string)

  /** The formatter loses nothing about this time. */
  ghost predicate Faithful(c: Clock, t: Time) {
    c.format(t) != "" && c.parse(c.format(t)) == Some(t)
  }

  /** The printed time can be read again, and as no earlier a time. */
  ghost predicate KeepsUp(c: Clock, t: Time) {
    && c.format(t) != "" && c.parse(c.format(t)).Some?
    && t.instant <= c.parse(c.format(t)).value.instant
  }

  datatype Watermark = Watermark(startTime: string, keys: seq<string>)

  datatype Item = Item(key: string, start: Time)

  const EMPTY := Watermark("", [])

  /** The instant below which rows are old; none when the text is blank or unreadable. */
  function Floor(c: Clock, wm: Watermark): Option<int> {
    if wm.startTime == "" then None else
    match c.parse(wm.startTime)
    case None => None
    case Some(t) => Some(t.instant)
  }

  predicate AtOrAbove(instant: int, floor: Option<int>) {
    floor.None? || floor.value <= instant
  }

  predicate IsNew(c: Clock, x: Item, wm: Watermark, seen: set<string>): (r: bool)
    ensures r <==> x.key !in seen && AtOrAbove(x.start.instant, Floor(c, wm))
  {
    if x.key in seen then false
    else if wm.startTime == "" then true
    else
      match c.parse(wm.startTime)
      case None => true
      case Some(checkpoint) =>
        if x.start.instant > checkpoint.instant then true
        else if x.start.instant < checkpoint.instant then false
        else true
  }

  function Advance(c: Clock, wm: Watermark, x: Item): Watermark {
    if wm.startTime == "" then Watermark(c.format(x.start), [x.key])
    else
      match c.parse(wm.startTime)
      case None => Watermark(c.format(x.start), [x.key])
      case Some(checkpoint) =>
        if x.start.instant > checkpoint.instant then Watermark(c.format(x.start), [x.key])
        else if x.start.instant == checkpoint.instant then wm.(keys := wm.keys + [x.key])
        else wm
  }

  function AdvanceAll(c: Clock, wm: Watermark, es: seq<Item>): Watermark {
    if es == [] then wm
    else Advance(c, AdvanceAll(c, wm, es[..|es| - 1]), es[|es| - 1])
  }

  function Keys(es: seq<Item>): set<string> {
    set x | x in es :: x.key
  }

  function SeenBy(wm: Watermark, es: seq<Item>): set<string> {
    (set k | k in wm.keys) + Keys(es)
  }

  /** What the loop emits when every row is tested against the loaded watermark. */
  function Frozen(c: Clock, wm: Watermark, items: seq<Item>): seq<Item> {
    if items == [] then []
    else
      var es := Frozen(c, wm, items[..|items| - 1]);
      var x := items[|items| - 1];
      if IsNew(c, x, wm, SeenBy(wm, es)) then es + [x] else es
  }

  /** What the loop emits when rows are tested against the watermark being advanced. */
  function Advancing(c: Clock, wm: Watermark, items: seq<Item>): seq<Item> {
    if items == [] then []
    else
      var es := Advancing(c, wm, items[..|items| - 1]);
      var x := items[|items| - 1];
      if IsNew(c, x, AdvanceAll(c, wm, es), SeenBy(wm, es)) then es + [x] else es
  }

  /** What one more emission adds to the watermark and to the seen keys. */
  lemma TakeItem(c: Clock, wm: Watermark, es: seq<Item>, x: Item)
    ensures AdvanceAll(c, wm, es + [x]) == Advance(c, AdvanceAll(c, wm, es), x)
    ensures SeenBy(wm, es + [x]) == SeenBy(wm, es) + {x.key}
  {
    assert (es + [x])[..|es|] == es;
  }

  // ---------------------------------------------------------------- reference

  /** The higher of a floor and one instant. */
  function Raise(floor: Option<int>, instant: int): Option<int> {
    if floor.None? || floor.value < instant then Some(instant) else floor
  }

  /** The largest of a floor and the starts of some items. */
  function Peak(floor: Option<int>, es: seq<Item>): Option<int> {
    if es == [] then floor
    else Raise(Peak(floor, es[..|es| - 1]), es[|es| - 1].start.instant)
  }

  lemma MemberOfSnoc(es: seq<Item>, x: Item)
    requires es != []
    ensures x in es <==> x in es[..|es| - 1] || x == es[|es| - 1]
  {
    assert es == es[..|es| - 1] + [es[|es| - 1]];
  }

  lemma {:induction false} PeakIsBound(floor: Option<int>, es: seq<Item>)
    ensures Peak(floor, es).None? <==> floor.None? && es == []
    ensures floor.Some? ==> floor.value <= Peak(floor, es).value
    ensures forall x :: x in es ==> x.start.instant <= Peak(floor, es).value
  {
    if es != [] {
      PeakIsBound(floor, es[..|es| - 1]);
      forall x | x in es
        ensures x.start.instant <= Peak(floor, es).value
      {
        MemberOfSnoc(es, x);
      }
    }
  }

  lemma {:induction false} PeakIsAttained(floor: Option<int>, es: seq<Item>)
    ensures Peak(floor, es) == floor || exists x :: x in es && Peak(floor, es) == Some(x.start.instant)
  {
    if es != [] {
      var before := Peak(floor, es[..|es| - 1]);
      PeakIsAttained(floor, es[..|es| - 1]);
      assert es[|es| - 1] in es;
    }
  }

  /** Peak is an upper bound, and the least one. */
  lemma PeakIsMaximum(floor: Option<int>, es: seq<Item>)
    ensures Peak(floor, es).None? <==> floor.None? && es == []
    ensures floor.Some? ==> floor.value <= Peak(floor, es).value
    ensures forall x :: x in es ==> x.start.instant <= Peak(floor, es).value
    ensures Peak(floor, es) == floor || exists x :: x in es && Peak(floor, es) == Some(x.start.instant)
  {
    PeakIsBound(floor, es);
    PeakIsAttained(floor, es);
  }

  /** The keys of the items that start exactly at an instant, in order. */
  function KeysAt(es: seq<Item>, at: Option<int>): seq<string> {
    if es == [] then []
    else
      var ks := KeysAt(es[..|es| - 1], at);
      var x := es[|es| - 1];
      if at == Some(x.start.instant) then ks + [x.key] else ks
  }

  lemma {:induction false} KeysAtMembers(es: seq<Item>, at: Option<int>)
    ensures forall x :: x in es && at == Some(x.start.instant) ==> x.key in KeysAt(es, at)
    ensures forall k :: k in KeysAt(es, at) ==> exists x :: x in es && x.key == k && at == Some(x.start.instant)
  {
    if es != [] {
      var n := |es| - 1;
      KeysAtMembers(es[..n], at);
      assert es == es[..n] + [es[n]];
      assert es[n] in es;
    }
  }

  ghost predicate AllFaithful(c: Clock, es: seq<Item>) {
    forall x :: x in es ==> Faithful(c, x.start)
  }

  ghost predicate AllKeepUp(c: Clock, es: seq<Item>) {
    forall x :: x in es ==> KeepsUp(c, x.start)
  }

  lemma {:induction false} KeysAtAboveAll(es: seq<Item>, at: int)
    requires forall x :: x in es ==> x.start.instant < at
    ensures KeysAt(es, Some(at)) == []
  {
    if es != [] {
      assert es[|es| - 1] in es;
      KeysAtAboveAll(es[..|es| - 1], at);
    }
  }

  /** What one step stores, whether or not times print faithfully: the start of a later
      item, or of any where nothing readable is stored, with its key alone; one more key at
      the same start; nothing of an older item. */
  lemma AdvanceStores(c: Clock, wm: Watermark, x: Item)
    ensures
      var r, floor := Advance(c, wm, x), Floor(c, wm);
      if floor.None? || floor.value < x.start.instant then r == Watermark(c.format(x.start), [x.key])
      else if floor.value == x.start.instant then r == Watermark(wm.startTime, wm.keys + [x.key])
      else r == wm
  {
  }

  /** What one step does to the floor and to the stored keys. */
  lemma AdvanceExact(c: Clock, wm: Watermark, x: Item)
    requires Faithful(c, x.start)
    ensures Floor(c, Advance(c, wm, x)) == Raise(Floor(c, wm), x.start.instant)
    ensures Advance(c, wm, x).keys ==
      if Floor(c, wm) == Some(x.start.instant) then wm.keys + [x.key]
      else if AtOrAbove(x.start.instant, Floor(c, wm)) then [x.key]
      else wm.keys
  {
  }

  lemma {:induction false} AdvanceAllFloor(c: Clock, wm: Watermark, es: seq<Item>)
    requires AllFaithful(c, es)
    ensures Floor(c, AdvanceAll(c, wm, es)) == Peak(Floor(c, wm), es)
  {
    if es != [] {
      var n := |es| - 1;
      assert es[n] in es;
      AdvanceAllFloor(c, wm, es[..n]);
      AdvanceExact(c, AdvanceAll(c, wm, es[..n]), es[n]);
    }
  }

  /** The keys to expect after some emissions, from a floor and the keys stored at it. */
  function KeysOver(floor: Option<int>, keys: seq<string>, es: seq<Item>): seq<string> {
    (if floor == Peak(floor, es) then keys else []) + KeysAt(es, Peak(floor, es))
  }

  function KeysAfter(c: Clock, wm: Watermark, es: seq<Item>): seq<string> {
    KeysOver(Floor(c, wm), wm.keys, es)
  }

  lemma KeysAtSnoc(es: seq<Item>, x: Item, at: Option<int>)
    ensures KeysAt(es + [x], at) == if at == Some(x.start.instant) then KeysAt(es, at) + [x.key] else KeysAt(es, at)
  {
    assert (es + [x])[..|es|] == es;
  }

  lemma PeakSnoc(floor: Option<int>, es: seq<Item>, x: Item)
    ensures Peak(floor, es + [x]) == Raise(Peak(floor, es), x.start.instant)
  {
    assert (es + [x])[..|es|] == es;
  }

  /** A later item starts the keys anew. */
  lemma KeysOverLater(floor: Option<int>, keys: seq<string>, es: seq<Item>, x: Item)
    requires Peak(floor, es).None? || Peak(floor, es).value < x.start.instant
    ensures KeysOver(floor, keys, es + [x]) == [x.key]
  {
    PeakSnoc(floor, es, x);
    PeakIsBound(floor, es);
    KeysAtAboveAll(es, x.start.instant);
    KeysAtSnoc(es, x, Some(x.start.instant));
    assert [] + [x.key] == [x.key];
  }

  /** Any other adds its key if it starts at the peak. */
  lemma KeysOverOther(floor: Option<int>, keys: seq<string>, es: seq<Item>, x: Item)
    requires Peak(floor, es).Some? && x.start.instant <= Peak(floor, es).value
    ensures KeysOver(floor, keys, es + [x])
         == if Peak(floor, es) == Some(x.start.instant) then KeysOver(floor, keys, es) + [x.key]
            else KeysOver(floor, keys, es)
  {
    PeakSnoc(floor, es, x);
    KeysAtSnoc(es, x, Peak(floor, es));
    Associate(if floor == Peak(floor, es) then keys else [], KeysAt(es, Peak(floor, es)), [x.key]);
  }

  /** Advancing over any emissions computes the maximum start and the keys at it. */
  lemma {:induction false} AdvanceAllExact(c: Clock, wm: Watermark, es: seq<Item>)
    requires AllFaithful(c, es)
    ensures Floor(c, AdvanceAll(c, wm, es)) == Peak(Floor(c, wm), es)
    ensures AdvanceAll(c, wm, es).keys == KeysAfter(c, wm, es)
  {
    AdvanceAllFloor(c, wm, es);
    if es != [] {
      var n := |es| - 1;
      assert es[n] in es && es == es[..n] + [es[n]];
      AdvanceAllExact(c, wm, es[..n]);
      AdvanceExact(c, AdvanceAll(c, wm, es[..n]), es[n]);
      var peak := Peak(Floor(c, wm), es[..n]);
      if peak.None? || peak.value < es[n].start.instant {
        KeysOverLater(Floor(c, wm), wm.keys, es[..n], es[n]);
      } else {
        KeysOverOther(Floor(c, wm), wm.keys, es[..n], es[n]);
      }
    }
  }

  // ------------------------------------------------------- what a loop may emit

  ghost predicate DistinctKeys(es: seq<Item>) {
    forall i, j :: 0 <= i < j < |es| ==> es[i].key != es[j].key
  }

  /** Emissions with distinct keys, none stored, none older than the floor. */
  ghost predicate Admissible(c: Clock, wm: Watermark, es: seq<Item>) {
    && DistinctKeys(es)
    && forall x :: x in es ==> x.key !in wm.keys && AtOrAbove(x.start.instant, Floor(c, wm))
  }

  lemma {:induction false} FrozenAdmissible(c: Clock, wm: Watermark, items: seq<Item>)
    ensures Admissible(c, wm, Frozen(c, wm, items))
    ensures forall x :: x in Frozen(c, wm, items) ==> x in items
    ensures forall x :: x in items && x.key !in wm.keys && AtOrAbove(x.start.instant, Floor(c, wm))
              ==> x.key in Keys(Frozen(c, wm, items))
  {
    if items != [] {
      var n := |items| - 1;
      FrozenAdmissible(c, wm, items[..n]);
      var es := Frozen(c, wm, items[..n]);
      assert items == items[..n] + [items[n]];
      if IsNew(c, items[n], wm, SeenBy(wm, es)) {
        DistinctExtends(es, items[n]);
      }
    }
  }

  lemma DistinctExtends(es: seq<Item>, x: Item)
    requires DistinctKeys(es) && x.key !in Keys(es)
    ensures DistinctKeys(es + [x])
  {
    forall i, j | 0 <= i < j < |es + [x]|
      ensures (es + [x])[i].key != (es + [x])[j].key
    {
      if j == |es| {
        assert es[i] in es;
      }
    }
  }

  // --------------------------------------------------------------- barred keys

  /** The start time text of a key: whatever follows its last NUL. */
  function AfterNul(key: string): string {
    if key == "" then ""
    else if key[|key| - 1] == '\0' then ""
    else AfterNul(key[..|key| - 1]) + [key[|key| - 1]]
  }

  lemma {:induction false} AfterNulOfKey(id: string, text: string)
    requires '\0' !in text
    ensures AfterNul(id + "\0" + text) == text
  {
    var key := id + "\0" + text;
    if text != "" {
      var n := |text| - 1;
      AfterNulOfKey(id, text[..n]);
      assert key[..|key| - 1] == id + "\0" + text[..n];
      assert text == text[..n] + [text[n]];
    }
  }

  /** The start of an item is the one its key spells out. */
  ghost predicate Keyed(at: string -> Option<Time>, es: seq<Item>) {
    forall x :: x in es ==> at(AfterNul(x.key)) == Some(x.start)
  }

  /** A watermark keeps a key out: it is older, or as old and stored. */
  ghost predicate Barred(c: Clock, at: string -> Option<Time>, wm: Watermark, k: string) {
    && Floor(c, wm).Some?
    && at(AfterNul(k)).Some?
    && var s := at(AfterNul(k)).value.instant;
       s < Floor(c, wm).value || (s == Floor(c, wm).value && k in wm.keys)
  }

  /** Where printed times keep up, the floor never falls and passes what was taken. */
  lemma AdvanceRises(c: Clock, wm: Watermark, x: Item)
    requires KeepsUp(c, x.start)
    ensures Floor(c, Advance(c, wm, x)).Some?
    ensures x.start.instant <= Floor(c, Advance(c, wm, x)).value
    ensures Floor(c, wm).Some? ==> Floor(c, wm).value <= Floor(c, Advance(c, wm, x)).value
  {
  }

  lemma {:induction false} FloorRises(c: Clock, wm: Watermark, es: seq<Item>)
    requires AllKeepUp(c, es)
    ensures Floor(c, wm).Some? ==>
      Floor(c, AdvanceAll(c, wm, es)).Some? && Floor(c, wm).value <= Floor(c, AdvanceAll(c, wm, es)).value
  {
    if es != [] {
      var n := |es| - 1;
      assert es[n] in es;
      FloorRises(c, wm, es[..n]);
      AdvanceRises(c, AdvanceAll(c, wm, es[..n]), es[n]);
    }
  }

  lemma BarredStep(c: Clock, at: string -> Option<Time>, wm: Watermark, x: Item, k: string)
    requires KeepsUp(c, x.start)
    requires Barred(c, at, wm, k) || (x.key == k && at(AfterNul(k)) == Some(x.start))
    ensures Barred(c, at, Advance(c, wm, x), k)
  {
    AdvanceRises(c, wm, x);
  }

  /** A barred key is not emitted by any admissible run, and is barred after it. */
  lemma {:induction false} BarredStays(c: Clock, at: string -> Option<Time>, wm: Watermark, es: seq<Item>, k: string)
    requires AllKeepUp(c, es) && Keyed(at, es) && Admissible(c, wm, es)
    requires Barred(c, at, wm, k)
    ensures k !in Keys(es)
    ensures Barred(c, at, AdvanceAll(c, wm, es), k)
  {
    StaysBarred(c, at, wm, es, k);
  }

  lemma {:induction false} StaysBarred(c: Clock, at: string -> Option<Time>, wm: Watermark, es: seq<Item>, k: string)
    requires AllKeepUp(c, es)
    requires Barred(c, at, wm, k)
    ensures Barred(c, at, AdvanceAll(c, wm, es), k)
  {
    if es != [] {
      var n := |es| - 1;
      assert es[n] in es;
      StaysBarred(c, at, wm, es[..n], k);
      BarredStep(c, at, AdvanceAll(c, wm, es[..n]), es[n], k);
    }
  }

  lemma {:induction false} EmittedIsBarred(c: Clock, at: string -> Option<Time>, wm: Watermark, es: seq<Item>,
                                           k: string)
    requires AllKeepUp(c, es) && Keyed(at, es)
    requires k in Keys(es)
    ensures Barred(c, at, AdvanceAll(c, wm, es), k)
  {
    var n := |es| - 1;
    assert es[n] in es && es == es[..n] + [es[n]];
    if es[n].key != k {
      EmittedIsBarred(c, at, wm, es[..n], k);
    }
    BarredStep(c, at, AdvanceAll(c, wm, es[..n]), es[n], k);
  }

  // ------------------------------------------------------------ counting a key

  function Count(k: string, es: seq<Item>): nat {
    if es == [] then 0
    else Count(k, es[..|es| - 1]) + (if es[|es| - 1].key == k then 1 else 0)
  }

  lemma {:induction false} CountConcat(k: string, a: seq<Item>, b: seq<Item>)
    ensures Count(k, a + b) == Count(k, a) + Count(k, b)
  {
    if b == [] {
      assert a + b == a;
    } else {
      CountConcat(k, a, b[..|b| - 1]);
      assert (a + b)[..|a + b| - 1] == a + b[..|b| - 1];
    }
  }

  lemma {:induction false} CountDistinct(k: string, es: seq<Item>)
    requires DistinctKeys(es)
    ensures Count(k, es) == if k in Keys(es) then 1 else 0
  {
    if es != [] {
      var n := |es| - 1;
      CountDistinct(k, es[..n]);
      assert es == es[..n] + [es[n]];
      assert es[n] in es;
      assert forall x :: x in es[..n] ==> x.key != es[n].key;
    }
  }

  lemma {:induction false} CountPositive(k: string, es: seq<Item>)
    ensures Count(k, es) > 0 <==> k in Keys(es)
  {
    if es != [] {
      var n := |es| - 1;
      CountPositive(k, es[..n]);
      assert es == es[..n] + [es[n]];
      assert es[n] in es;
    }
  }

  lemma CountOne(k: string, x: Item)
    ensures Count(k, [x]) == if x.key == k then 1 else 0
  {
    assert [x][..0] == [];
  }

  /** What some emissions do to a key: logged at most once, never if barred, and
      barred once logged. */
  ghost predicate TreatsKey(c: Clock, at: string -> Option<Time>, wm: Watermark, es: seq<Item>, k: string) {
    && Count(k, es) <= 1
    && (Barred(c, at, wm, k) ==> Count(k, es) == 0 && Barred(c, at, AdvanceAll(c, wm, es), k))
    && (Count(k, es) > 0 ==> Barred(c, at, AdvanceAll(c, wm, es), k))
  }

  lemma AdmissibleTreatsKey(c: Clock, at: string -> Option<Time>, wm: Watermark, es: seq<Item>, k: string)
    requires AllKeepUp(c, es) && Keyed(at, es) && Admissible(c, wm, es)
    ensures TreatsKey(c, at, wm, es, k)
  {
    CountDistinct(k, es);
    if Barred(c, at, wm, k) {
      BarredStays(c, at, wm, es, k);
    }
    if k in Keys(es) {
      EmittedIsBarred(c, at, wm, es, k);
    }
  }

  // ---------------------------------------------- advancing against frozen loop

  ghost predicate TimeOrdered(es: seq<Item>) {
    forall i, j :: 0 <= i < j < |es| ==> es[i].start.instant <= es[j].start.instant
  }

  /** es is obtained from fs by leaving some items out. */
  ghost predicate Subsequence(es: seq<Item>, fs: seq<Item>) {
    if fs == [] then es == []
    else
      || Subsequence(es, fs[..|fs| - 1])
      || (es != [] && es[|es| - 1] == fs[|fs| - 1] && Subsequence(es[..|es| - 1], fs[..|fs| - 1]))
  }

  /** For any row order both loops reach the same watermark; the advancing loop
      emits a time-ordered part of what the frozen loop emits. */
  lemma {:induction false} AdvancingAgainstFrozen(c: Clock, at: string -> Option<Time>, wm: Watermark, items: seq<Item>)
    requires AllFaithful(c, items) && Keyed(at, items)
    ensures InStep(c, wm, Advancing(c, wm, items), Frozen(c, wm, items))
  {
    if items != [] {
      var n := |items| - 1;
      var x := items[n];
      assert items == items[..n] + [x];
      AdvancingAgainstFrozen(c, at, wm, items[..n]);
      FrozenAdmissible(c, wm, items[..n]);
      var es, fs := Advancing(c, wm, items[..n]), Frozen(c, wm, items[..n]);
      if IsNew(c, x, AdvanceAll(c, wm, es), SeenBy(wm, es)) {
        if x.key in Keys(fs) {
          SkippedKeyIsOld(c, at, wm, es, fs, x);
          assert false;
        }
        BothTake(c, wm, es, fs, x);
      } else if IsNew(c, x, wm, SeenBy(wm, fs)) {
        OnlyFrozenTakes(c, wm, es, fs, x);
      }
    }
  }

  /** How far the two loops have stayed together after the same rows. */
  ghost predicate InStep(c: Clock, wm: Watermark, es: seq<Item>, fs: seq<Item>) {
    && AdvanceAll(c, wm, es) == AdvanceAll(c, wm, fs)
    && Admissible(c, wm, es) && TimeOrdered(es) && Subsequence(es, fs)
    && (forall x :: x in es ==> x in fs)
    && var floor := Floor(c, AdvanceAll(c, wm, es));
       forall x :: x in fs && x !in es ==> floor.Some? && x.start.instant < floor.value
  }

  lemma TimeOrderedSnoc(es: seq<Item>, x: Item)
    requires TimeOrdered(es) && forall y :: y in es ==> y.start.instant <= x.start.instant
    ensures TimeOrdered(es + [x])
  {
    forall i | 0 <= i < |es|
      ensures es[i].start.instant <= x.start.instant
    {
      assert es[i] in es;
    }
  }

  /** An item new to the advanced watermark extends what was emitted, in order. */
  lemma TakenIsAdmissible(c: Clock, wm: Watermark, es: seq<Item>, x: Item)
    requires AllFaithful(c, es) && Admissible(c, wm, es) && TimeOrdered(es)
    requires IsNew(c, x, AdvanceAll(c, wm, es), SeenBy(wm, es))
    ensures Admissible(c, wm, es + [x]) && TimeOrdered(es + [x])
    ensures AtOrAbove(x.start.instant, Floor(c, wm))
  {
    AdvanceAllExact(c, wm, es);
    PeakIsMaximum(Floor(c, wm), es);
    DistinctExtends(es, x);
    TimeOrderedSnoc(es, x);
  }

  lemma BothTake(c: Clock, wm: Watermark, es: seq<Item>, fs: seq<Item>, x: Item)
    requires AllFaithful(c, es) && Faithful(c, x.start)
    requires InStep(c, wm, es, fs)
    requires IsNew(c, x, AdvanceAll(c, wm, es), SeenBy(wm, es)) && x.key !in Keys(fs)
    ensures InStep(c, wm, es + [x], fs + [x])
    ensures IsNew(c, x, wm, SeenBy(wm, fs))
  {
    TakenIsAdmissible(c, wm, es, x);
    assert (es + [x])[..|es|] == es && (fs + [x])[..|fs|] == fs;
    AdvanceExact(c, AdvanceAll(c, wm, es), x);
    assert Subsequence(es + [x], fs + [x]);
  }

  lemma OnlyFrozenTakes(c: Clock, wm: Watermark, es: seq<Item>, fs: seq<Item>, x: Item)
    requires Faithful(c, x.start)
    requires InStep(c, wm, es, fs)
    requires !IsNew(c, x, AdvanceAll(c, wm, es), SeenBy(wm, es)) && IsNew(c, x, wm, SeenBy(wm, fs))
    ensures InStep(c, wm, es, fs + [x])
  {
    var mid := AdvanceAll(c, wm, es);
    assert (fs + [x])[..|fs|] == fs;
    AdvanceExact(c, mid, x);
    assert Keys(es) <= Keys(fs);
    assert Floor(c, mid).Some? && x.start.instant < Floor(c, mid).value;
    assert AdvanceAll(c, wm, fs + [x]) == Advance(c, mid, x) == mid;
    assert Subsequence(es, fs + [x]);
  }

  /** A key the frozen loop took and the advancing one did not is too old by now. */
  lemma SkippedKeyIsOld(c: Clock, at: string -> Option<Time>, wm: Watermark, es: seq<Item>, fs: seq<Item>, x: Item)
    requires Keyed(at, fs) && at(AfterNul(x.key)) == Some(x.start)
    requires InStep(c, wm, es, fs)
    requires x.key in Keys(fs)
    ensures !IsNew(c, x, AdvanceAll(c, wm, es), SeenBy(wm, es))
  {
    var y :| y in fs && y.key == x.key;
    assert y.start == x.start;
    if y in es {
      assert x.key in Keys(es);
    }
  }

  /** The two loops emit the same rows exactly when the rows the frozen loop
      takes arrive in time order. */
  lemma {:induction false} AdvancingEqualsFrozenIff(c: Clock, at: string -> Option<Time>, wm: Watermark,
                                                    items: seq<Item>)
    requires AllFaithful(c, items) && Keyed(at, items)
    ensures Advancing(c, wm, items) == Frozen(c, wm, items) <==> TimeOrdered(Frozen(c, wm, items))
  {
    AdvancingAgainstFrozen(c, at, wm, items);
    if TimeOrdered(Frozen(c, wm, items)) {
      OrderedIsKept(c, wm, items);
    }
  }

  lemma TimeOrderedExtends(es: seq<Item>, x: Item)
    requires TimeOrdered(es + [x])
    ensures TimeOrdered(es)
    ensures forall y :: y in es ==> y.start.instant <= x.start.instant
  {
    var all := es + [x];
    forall i, j | 0 <= i < j < |es|
      ensures es[i].start.instant <= es[j].start.instant
    {
      assert all[i] == es[i] && all[j] == es[j];
    }
    forall y | y in es
      ensures y.start.instant <= x.start.instant
    {
      var i :| 0 <= i < |es| && es[i] == y;
      assert all[i] == y && all[|es|] == x;
    }
  }

  lemma {:induction false} OrderedIsKept(c: Clock, wm: Watermark, items: seq<Item>)
    requires AllFaithful(c, items)
    requires TimeOrdered(Frozen(c, wm, items))
    ensures Advancing(c, wm, items) == Frozen(c, wm, items)
  {
    if items != [] {
      var n := |items| - 1;
      var x := items[n];
      assert items == items[..n] + [x];
      var fs := Frozen(c, wm, items[..n]);
      FrozenAdmissible(c, wm, items[..n]);
      if IsNew(c, x, wm, SeenBy(wm, fs)) {
        TimeOrderedExtends(fs, x);
      }
      OrderedIsKept(c, wm, items[..n]);
      AdvanceAllExact(c, wm, fs);
      PeakIsMaximum(Floor(c, wm), fs);
    }
  }

  /** Input rows in time order, as a sufficient condition on the input alone. */
  lemma {:induction false} OrderedInputOrderedOutput(c: Clock, wm: Watermark, items: seq<Item>)
    requires TimeOrdered(items)
    ensures TimeOrdered(Frozen(c, wm, items))
  {
    if items != [] {
      var n := |items| - 1;
      OrderedInputOrderedOutput(c, wm, items[..n]);
      FrozenAdmissible(c, wm, items[..n]);
      var fs := Frozen(c, wm, items[..n]);
      forall i | 0 <= i < |fs|
        ensures fs[i].start.instant <= items[n].start.instant
      {
        assert fs[i] in items[..n];
      }
    }
  }

  /** The advancing loop emits admissibly for the watermark it was given. */
  lemma {:induction false} AdvancingAdmissible(c: Clock, wm: Watermark, items: seq<Item>)
    requires AllKeepUp(c, items)
    ensures Admissible(c, wm, Advancing(c, wm, items))
    ensures forall x :: x in Advancing(c, wm, items) ==> x in items
  {
    if items != [] {
      var n := |items| - 1;
      var x := items[n];
      assert items == items[..n] + [x];
      AdvancingAdmissible(c, wm, items[..n]);
      var es := Advancing(c, wm, items[..n]);
      FloorRises(c, wm, es);
      if IsNew(c, x, AdvanceAll(c, wm, es), SeenBy(wm, es)) {
        DistinctExtends(es, x);
      }
    }
  }

  /** Every key a watermark stores is barred by it: it starts no later. */
  ghost predicate StoredBarred(c: Clock, at: string -> Option<Time>, wm: Watermark) {
    forall k :: k in wm.keys ==> Barred(c, at, wm, k)
  }

  lemma {:induction false} KeysOfAdvance(c: Clock, wm: Watermark, es: seq<Item>)
    ensures forall k :: k in AdvanceAll(c, wm, es).keys ==> k in wm.keys || k in Keys(es)
  {
    if es != [] {
      var n := |es| - 1;
      KeysOfAdvance(c, wm, es[..n]);
      assert es == es[..n] + [es[n]];
      assert es[n] in es;
    }
  }

  lemma StoredStayBarred(c: Clock, at: string -> Option<Time>, wm: Watermark, es: seq<Item>)
    requires AllKeepUp(c, es) && Keyed(at, es) && StoredBarred(c, at, wm)
    ensures StoredBarred(c, at, AdvanceAll(c, wm, es))
  {
    KeysOfAdvance(c, wm, es);
    forall k | k in AdvanceAll(c, wm, es).keys
      ensures Barred(c, at, AdvanceAll(c, wm, es), k)
    {
      if k in wm.keys {
        StaysBarred(c, at, wm, es, k);
      } else {
        EmittedIsBarred(c, at, wm, es, k);
      }
    }
  }

  /** Whatever the advancing loop has read is barred, whether it was taken or not. */
  lemma {:induction false} AdvancingBars(c: Clock, at: string -> Option<Time>, wm: Watermark, items: seq<Item>, x: Item)
    requires AllKeepUp(c, items) && Keyed(at, items) && StoredBarred(c, at, wm)
    requires x in items
    ensures Barred(c, at, AdvanceAll(c, wm, Advancing(c, wm, items)), x.key)
  {
    var n := |items| - 1;
    var last, es := items[n], Advancing(c, wm, items[..n]);
    assert items == items[..n] + [last];
    assert (es + [last])[..|es|] == es;
    if x in items[..n] {
      AdvancingBars(c, at, wm, items[..n], x);
      BarredStep(c, at, AdvanceAll(c, wm, es), last, x.key);
    } else if IsNew(c, x, AdvanceAll(c, wm, es), SeenBy(wm, es)) {
      BarredStep(c, at, AdvanceAll(c, wm, es), x, x.key);
    } else {
      AdvancingAdmissible(c, wm, items[..n]);
      PassedOverIsBarred(c, at, wm, es, x);
    }
  }

  lemma PassedOverIsBarred(c: Clock, at: string -> Option<Time>, wm: Watermark, es: seq<Item>, x: Item)
    requires AllKeepUp(c, es) && Keyed(at, es) && StoredBarred(c, at, wm)
    requires at(AfterNul(x.key)) == Some(x.start)
    requires !IsNew(c, x, AdvanceAll(c, wm, es), SeenBy(wm, es))
    ensures Barred(c, at, AdvanceAll(c, wm, es), x.key)
  {
    if x.key in wm.keys {
      StaysBarred(c, at, wm, es, x.key);
    } else if x.key in Keys(es) {
      EmittedIsBarred(c, at, wm, es, x.key);
    }
  }

  // ------------------------------------------------------------- one log per row

  /** A row the stored watermark lets through: not stored and not older than it. */
  predicate Wants(c: Clock, wm: Watermark, x: Item) {
    x.key !in wm.keys && AtOrAbove(x.start.instant, Floor(c, wm))
  }

  /** All rows the stored watermark lets through, repeats included. */
  function WantedItems(c: Clock, wm: Watermark, items: seq<Item>): seq<Item> {
    if items == [] then []
    else
      var before := WantedItems(c, wm, items[..|items| - 1]);
      var x := items[|items| - 1];
      if Wants(c, wm, x) then before + [x] else before
  }

  lemma DistinctShrinks(es: seq<Item>, x: Item)
    requires DistinctKeys(es + [x])
    ensures DistinctKeys(es) && x.key !in Keys(es)
  {
    var all := es + [x];
    forall i, j | 0 <= i < j < |es|
      ensures es[i].key != es[j].key
    {
      assert all[i] == es[i] && all[j] == es[j];
    }
    forall y | y in es
      ensures y.key != x.key
    {
      var i :| 0 <= i < |es| && es[i] == y;
      assert all[i] == y && all[|es|] == x;
    }
  }

  /** The frozen loop reports every wanted row exactly when no two share a key. */
  lemma FrozenIsWantedIff(c: Clock, wm: Watermark, items: seq<Item>)
    ensures Frozen(c, wm, items) == WantedItems(c, wm, items) <==> DistinctKeys(WantedItems(c, wm, items))
  {
    FrozenAdmissible(c, wm, items);
    if DistinctKeys(WantedItems(c, wm, items)) {
      DistinctAreTaken(c, wm, items);
    }
  }

  lemma {:induction false} DistinctAreTaken(c: Clock, wm: Watermark, items: seq<Item>)
    requires DistinctKeys(WantedItems(c, wm, items))
    ensures Frozen(c, wm, items) == WantedItems(c, wm, items)
  {
    if items != [] {
      var n := |items| - 1;
      var x := items[n];
      if Wants(c, wm, x) {
        DistinctShrinks(WantedItems(c, wm, items[..n]), x);
      }
      DistinctAreTaken(c, wm, items[..n]);
    }
  }

  /** The advancing loop reports every wanted row exactly when no two share a key
      and they come in time order. */
  lemma AdvancingIsWantedIff(c: Clock, at: string -> Option<Time>, wm: Watermark, items: seq<Item>)
    requires AllFaithful(c, items) && Keyed(at, items)
    ensures
      var wanted := WantedItems(c, wm, items);
      Advancing(c, wm, items) == wanted <==> DistinctKeys(wanted) && TimeOrdered(wanted)
  {
    AdvancingAgainstFrozen(c, at, wm, items);
    AdvancingEqualsFrozenIff(c, at, wm, items);
    FrozenIsWantedIff(c, wm, items);
  }

  lemma {:induction false} FrozenIsNoLonger(c: Clock, wm: Watermark, items: seq<Item>)
    ensures |Frozen(c, wm, items)| <= |WantedItems(c, wm, items)|
  {
    if items != [] {
      FrozenIsNoLonger(c, wm, items[..|items| - 1]);
    }
  }

  lemma {:induction false} SubsequenceIsNoLonger(es: seq<Item>, fs: seq<Item>)
    requires Subsequence(es, fs)
    ensures |es| <= |fs|
  {
    if fs != [] {
      var n := |fs| - 1;
      if Subsequence(es, fs[..n]) {
        SubsequenceIsNoLonger(es, fs[..n]);
      } else {
        SubsequenceIsNoLonger(es[..|es| - 1], fs[..n]);
      }
    }
  }
}
