/** A log that several sources write to, each record tagged with its source. */
module TaggedLogs {

  datatype Sent<+T> = Sent(source: nat, item: T)

  function Tag<T>(i: nat, items: seq<T>): seq<Sent<T>> {
    if |items| == 0 then [] else Tag(i, items[..|items| - 1]) + [Sent(i, items[|items| - 1])]
  }

  /** What one source has logged. */
  function LogOf<T>(i: nat, log: seq<Sent<T>>): seq<T> {
    if |log| == 0 then []
    else
      var before := LogOf(i, log[..|log| - 1]);
      if log[|log| - 1].source == i then before + [log[|log| - 1].item] else before
  }

  lemma {:induction false} LogOfConcat<T>(i: nat, a: seq<Sent<T>>, b: seq<Sent<T>>)
    ensures LogOf(i, a + b) == LogOf(i, a) + LogOf(i, b)
  {
    if |b| == 0 {
      assert a + b == a;
    } else {
      LogOfConcat(i, a, b[..|b| - 1]);
      assert (a + b)[..|a + b| - 1] == a + b[..|b| - 1];
    }
  }

  lemma {:induction false} LogOfTag<T>(i: nat, j: nat, items: seq<T>)
    ensures LogOf(i, Tag(j, items)) == if i == j then items else []
  {
    if |items| > 0 {
      var n := |items| - 1;
      LogOfTag(i, j, items[..n]);
      var before := Tag(j, items[..n]);
      assert (before + [Sent(j, items[n])])[..|before|] == before;
      assert items == items[..n] + [items[n]];
    }
  }

  /** What the records of one source add to the log of another, and to its own. */
  lemma LogOfMore<T>(i: nat, j: nat, log: seq<Sent<T>>, items: seq<T>)
    ensures LogOf(i, log + Tag(j, items)) == if i == j then LogOf(i, log) + items else LogOf(i, log)
  {
    LogOfConcat(i, log, Tag(j, items));
    LogOfTag(i, j, items);
    assert LogOf(i, log) + [] == LogOf(i, log);
  }

  lemma TagOne<T>(i: nat, x: T)
    ensures Tag(i, [x]) == [Sent(i, x)]
  {
    assert [x][..0] == [];
  }
}
