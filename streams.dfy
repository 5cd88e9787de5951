/** The parts of java.util.stream the check relies on: `filter`, a fused
    map/filter pipeline ending in `Collectors.toMap(Entry::getKey, Entry::getValue)`,
    and that collector on its own. */
module Streams {
  import opened Reflection
  import opened Failures

  /** `a` is `b` with some elements left out and the others kept in order. */
  ghost predicate IsSubsequence<T>(a: seq<T>, b: seq<T>)
    decreases |b|
  {
    if a == [] then true
    else if b == [] then false
    else (a[0] == b[0] && IsSubsequence(a[1..], b[1..])) || IsSubsequence(a, b[1..])
  }

  /** `Stream.filter`: the elements of s that satisfy p, each as often as in s, in their order. */
  function Filter<T(==,!new)>(s: seq<T>, p: T -> bool): (r: seq<T>)
    ensures forall x :: x in r <==> x in s && p(x)
    ensures forall x :: multiset(r)[x] == if p(x) then multiset(s)[x] else 0
    ensures IsSubsequence(r, s)
    decreases |s|
  {
    if s == [] then []
    else
      assert s == [s[0]] + s[1..];
      if p(s[0]) then [s[0]] + Filter(s[1..], p) else Filter(s[1..], p)
  }

  /** Filtering a concatenation filters each part. */
  lemma {:induction false} FilterConcat<T(!new)>(a: seq<T>, b: seq<T>, p: T -> bool)
    ensures Filter(a + b, p) == Filter(a, p) + Filter(b, p)
    decreases |a|
  {
    if a == [] {
      assert a + b == b;
    } else {
      assert (a + b)[0] == a[0];
      assert (a + b)[1..] == a[1..] + b;
      FilterConcat(a[1..], b, p);
    }
  }

  /** A filter no element passes leaves nothing. */
  lemma {:induction false} FilterDropsAll<T(!new)>(s: seq<T>, p: T -> bool)
    requires forall x :: x in s ==> !p(x)
    ensures Filter(s, p) == []
    decreases |s|
  {
    if s != [] {
      assert s[0] in s;
      FilterDropsAll(s[1..], p);
    }
  }

  /** A filter every element passes keeps the stream as it is. */
  lemma {:induction false} FilterKeepsAll<T(!new)>(s: seq<T>, p: T -> bool)
    requires forall x :: x in s ==> p(x)
    ensures Filter(s, p) == s
    decreases |s|
  {
    if s != [] {
      FilterKeepsAll(s[1..], p);
    }
  }

  // ---- Collectors.toMap without a merge function ----

  /** No key occurs twice, whatever the values. */
  predicate DistinctKeys(es: seq<Entry>) {
    forall i, j :: 0 <= i < j < |es| ==> es[i].0 != es[j].0
  }

  function KeysOf(es: seq<Entry>): set<Type> {
    set e | e in es :: e.0
  }

  lemma DistinctKeysCons(es: seq<Entry>)
    requires es != []
    ensures KeysOf(es) == {es[0].0} + KeysOf(es[1..])
    ensures DistinctKeys(es) <==> es[0].0 !in KeysOf(es[1..]) && DistinctKeys(es[1..])
  {
    var rest := es[1..];
    assert forall e :: e in es <==> e == es[0] || e in rest by {
      assert es == [es[0]] + rest;
    }
    if DistinctKeys(es) {
      forall e | e in rest ensures e.0 != es[0].0 {
        var j :| 0 <= j < |rest| && rest[j] == e;
        assert es[j + 1] == e;
      }
    }
    if es[0].0 !in KeysOf(rest) && DistinctKeys(rest) {
      forall i, j | 0 <= i < j < |es| ensures es[i].0 != es[j].0 {
        if i == 0 {
          assert es[j] == rest[j - 1];
          assert es[j] in rest;
        } else {
          assert es[i] == rest[i - 1] && es[j] == rest[j - 1];
        }
      }
    }
  }

  /** With distinct keys there are as many keys as entries. */
  lemma {:induction false} DistinctKeysCount(es: seq<Entry>)
    requires DistinctKeys(es)
    ensures |KeysOf(es)| == |es|
    decreases |es|
  {
    if es != [] {
      DistinctKeysCons(es);
      DistinctKeysCount(es[1..]);
    } else {
      assert KeysOf(es) == {};
    }
  }

  /** The collector's accumulator: a key already present is an error, even
      when the value is the same. */
  function Accumulate(acc: map<Type, Type>, e: Entry): Result<map<Type, Type>>
  {
    if e.0 in acc then Err(DuplicateKey(e.0)) else Ok(acc[e.0 := e.1])
  }

  /** The collector run over es, starting from acc. */
  function ToMapInto(es: seq<Entry>, acc: map<Type, Type>): (r: Result<map<Type, Type>>)
    ensures r.Ok? <==> DistinctKeys(es) && KeysOf(es) !! acc.Keys
    ensures r.Ok? ==> r.value.Keys == acc.Keys + KeysOf(es)
    ensures r.Ok? ==> forall k :: k in acc ==> r.value[k] == acc[k]
    ensures r.Ok? ==> forall e :: e in es ==> r.value[e.0] == e.1
    ensures r.Err? ==> r.error.DuplicateKey? && r.error.key in KeysOf(es)
    decreases |es|
  {
    if es == [] then
      assert KeysOf(es) == {};
      Ok(acc)
    else
      DistinctKeysCons(es);
      assert forall e :: e in es <==> e == es[0] || e in es[1..] by {
        assert es == [es[0]] + es[1..];
      }
      match Accumulate(acc, es[0])
      case Err(err) => Err(err)
      case Ok(acc') => ToMapInto(es[1..], acc')
  }

  /** `Collectors.toMap(Entry::getKey, Entry::getValue)` over a list of entries:
      it fails exactly when a key repeats, and otherwise holds exactly the entries. */
  function ToMap(es: seq<Entry>): (r: Result<map<Type, Type>>)
    ensures r.Ok? <==> DistinctKeys(es)
    ensures r.Ok? ==> r.value.Keys == KeysOf(es) && |r.value| == |es|
    ensures r.Ok? ==> forall e :: e in es ==> r.value[e.0] == e.1
    ensures r.Err? ==> r.error.DuplicateKey? && r.error.key in KeysOf(es)
  {
    if DistinctKeys(es) then DistinctKeysCount(es); ToMapInto(es, map[]) else ToMapInto(es, map[])
  }

  // ---- a stream pipeline ending in toMap, element by element ----

  /** Runs each element through the pipeline's map and filter stages (`step`:
      an error when a stage fails, None when a filter drops the element, an
      entry otherwise) and hands each entry to the collector before the next
      element is looked at, as a sequential Java stream does. */
  function CollectInto<T>(xs: seq<T>, step: T -> Result<Option<Entry>>, acc: map<Type, Type>): (r: Result<map<Type, Type>>)
    ensures r.Ok? ==> acc.Keys <= r.value.Keys && forall k :: k in acc ==> r.value[k] == acc[k]
    ensures r.Ok? ==> forall i :: 0 <= i < |xs| ==> step(xs[i]).Ok?
    decreases |xs|
  {
    if xs == [] then Ok(acc)
    else
      match step(xs[0])
      case Err(err) => Err(err)
      case Ok(None) => CollectInto(xs[1..], step, acc)
      case Ok(Some(e)) =>
        match Accumulate(acc, e)
        case Err(err) => Err(err)
        case Ok(acc') => CollectInto(xs[1..], step, acc')
  }

  /** Every element passes the pipeline's stages without an error. */
  ghost predicate AllSucceed<T>(xs: seq<T>, step: T -> Result<Option<Entry>>) {
    forall i :: 0 <= i < |xs| ==> step(xs[i]).Ok?
  }

  /** The entries that reach the collector, in stream order. */
  function Collected<T>(xs: seq<T>, step: T -> Result<Option<Entry>>): (r: seq<Entry>)
    ensures forall e :: e in r <==> exists i :: 0 <= i < |xs| && step(xs[i]) == Ok(Some(e))
    decreases |xs|
  {
    if xs == [] then []
    else
      var here := match step(xs[0]) case Ok(Some(e)) => [e] case _ => [];
      var rest := Collected(xs[1..], step);
      assert forall e :: (exists i :: 0 <= i < |xs| && step(xs[i]) == Ok(Some(e))) <==>
                         (step(xs[0]) == Ok(Some(e)) || exists i :: 0 <= i < |xs[1..]| && step(xs[1..][i]) == Ok(Some(e))) by {
        forall e, i | 0 < i < |xs| && step(xs[i]) == Ok(Some(e))
          ensures exists i' :: 0 <= i' < |xs[1..]| && step(xs[1..][i']) == Ok(Some(e)) {
          assert xs[1..][i - 1] == xs[i];
        }
      }
      here + rest
  }

  lemma AllSucceedCons<T>(xs: seq<T>, step: T -> Result<Option<Entry>>)
    requires xs != []
    ensures AllSucceed(xs, step) <==> step(xs[0]).Ok? && AllSucceed(xs[1..], step)
  {
    assert forall i :: 0 < i < |xs| ==> xs[i] == xs[1..][i - 1];
  }

  /** The fused pipeline agrees with running the stages over every element
      first and collecting afterwards: it succeeds exactly when that does, with
      the same map. */
  lemma {:induction false} CollectIntoStaged<T>(xs: seq<T>, step: T -> Result<Option<Entry>>, acc: map<Type, Type>)
    ensures CollectInto(xs, step, acc).Ok? <==> AllSucceed(xs, step) && ToMapInto(Collected(xs, step), acc).Ok?
    ensures CollectInto(xs, step, acc).Ok? ==> CollectInto(xs, step, acc) == ToMapInto(Collected(xs, step), acc)
    decreases |xs|
  {
    if xs != [] {
      var rest := xs[1..];
      AllSucceedCons(xs, step);
      var es := Collected(xs, step);
      var tail := Collected(rest, step);
      match step(xs[0])
      case Err(_) =>
      case Ok(None) =>
        assert es == tail;
        CollectIntoStaged(rest, step, acc);
      case Ok(Some(e)) =>
        assert es == [e] + tail;
        assert es[0] == e && es[1..] == tail;
        if e.0 !in acc {
          CollectIntoStaged(rest, step, acc[e.0 := e.1]);
          assert ToMapInto(es, acc) == ToMapInto(tail, acc[e.0 := e.1]);
        } else {
          assert ToMapInto(es, acc) == Err(DuplicateKey(e.0));
        }
    }
  }

  /** The element-by-element run fails at element i: every earlier element
      passed the stages and the collector accepted its entry, and element i
      either fails a stage with err or hands the collector a key it already
      holds, from acc or from an earlier element. */
  ghost predicate FailsAt<T>(xs: seq<T>, step: T -> Result<Option<Entry>>, acc: map<Type, Type>, i: int, err: Error) {
    && 0 <= i < |xs|
    && AllSucceed(xs[..i], step)
    && ToMapInto(Collected(xs[..i], step), acc).Ok?
    && (|| step(xs[i]) == Err(err)
        || (&& step(xs[i]).Ok? && step(xs[i]).value.Some?
            && err == DuplicateKey(step(xs[i]).value.value.0)
            && step(xs[i]).value.value.0 in acc.Keys + KeysOf(Collected(xs[..i], step))))
  }

  /** The error of the element-by-element run is the first one the stream
      meets: the first stage failure or the first key the collector sees
      twice, whichever comes earlier. */
  lemma {:induction false} CollectIntoFirstError<T>(xs: seq<T>, step: T -> Result<Option<Entry>>, acc: map<Type, Type>)
    requires CollectInto(xs, step, acc).Err?
    ensures exists i :: FailsAt(xs, step, acc, i, CollectInto(xs, step, acc).error)
    decreases |xs|
  {
    var err := CollectInto(xs, step, acc).error;
    var rest := xs[1..];
    assert xs[..0] == [];
    match step(xs[0])
    case Err(e) =>
      assert FailsAt(xs, step, acc, 0, err);
    case Ok(None) =>
      CollectIntoFirstError(rest, step, acc);
      var i :| FailsAt(rest, step, acc, i, err);
      PrefixAfterHead(xs, step, i);
      assert Collected(xs[..i + 1], step) == Collected(rest[..i], step);
      assert FailsAt(xs, step, acc, i + 1, err);
    case Ok(Some(e)) =>
      if e.0 in acc {
        assert Collected(xs[..0], step) == [];
        assert FailsAt(xs, step, acc, 0, err);
      } else {
        var acc' := acc[e.0 := e.1];
        CollectIntoFirstError(rest, step, acc');
        var i :| FailsAt(rest, step, acc', i, err);
        PrefixAfterHead(xs, step, i);
        var tail := Collected(rest[..i], step);
        assert Collected(xs[..i + 1], step) == [e] + tail;
        DistinctKeysCons([e] + tail);
        assert ([e] + tail)[1..] == tail;
        assert FailsAt(xs, step, acc, i + 1, err);
      }
  }

  /** When every element passes its stages, the only way the collection fails
      is a key that two elements share, and the error names it. */
  lemma CollectDuplicateKey<T>(xs: seq<T>, step: T -> Result<Option<Entry>>)
    requires AllSucceed(xs, step) && Collect(xs, step).Err?
    ensures Collect(xs, step).error.DuplicateKey?
    ensures exists i, j :: SameKeyAt(xs, step, i, j) && step(xs[j]).value.value.0 == Collect(xs, step).error.key
  {
    var err := Collect(xs, step).error;
    CollectIntoFirstError(xs, step, map[]);
    var j :| FailsAt(xs, step, map[], j, err);
    var e := step(xs[j]).value.value;
    assert e.0 in KeysOf(Collected(xs[..j], step));
    var e' :| e' in Collected(xs[..j], step) && e'.0 == e.0;
    var i :| 0 <= i < j && step(xs[..j][i]) == Ok(Some(e'));
    assert xs[..j][i] == xs[i];
    assert SameKeyAt(xs, step, i, j);
  }

  /** Taking i + 1 elements of xs is its head followed by i elements of its tail. */
  lemma PrefixAfterHead<T>(xs: seq<T>, step: T -> Result<Option<Entry>>, i: nat)
    requires i < |xs| - 1
    ensures xs[..i + 1][0] == xs[0] && xs[..i + 1][1..] == xs[1..][..i] && xs[i + 1] == xs[1..][i]
    ensures AllSucceed(xs[..i + 1], step) <==> step(xs[0]).Ok? && AllSucceed(xs[1..][..i], step)
  {
    assert xs[..i + 1][1..] == xs[1..][..i];
    AllSucceedCons(xs[..i + 1], step);
  }

  /** Two elements, i before j, whose entries reach the collector with the same key. */
  ghost predicate SameKeyAt<T>(xs: seq<T>, step: T -> Result<Option<Entry>>, i: int, j: int) {
    && 0 <= i < j < |xs|
    && step(xs[i]).Ok? && step(xs[i]).value.Some?
    && step(xs[j]).Ok? && step(xs[j]).value.Some?
    && step(xs[i]).value.value.0 == step(xs[j]).value.value.0
  }

  /** Some two elements of the stream hand the collector the same key. */
  ghost predicate RepeatsKey<T>(xs: seq<T>, step: T -> Result<Option<Entry>>) {
    exists i, j :: SameKeyAt(xs, step, i, j)
  }

  /** Two elements of the tail that share a key share it in the whole stream. */
  lemma SameKeyAtTail<T>(xs: seq<T>, step: T -> Result<Option<Entry>>, a: int, b: int)
    requires xs != [] && SameKeyAt(xs[1..], step, a, b)
    ensures SameKeyAt(xs, step, a + 1, b + 1)
  {
    assert xs[1..][a] == xs[a + 1] && xs[1..][b] == xs[b + 1];
  }

  /** The collected entries repeat a key exactly when two elements of the
      stream produce entries with that key. */
  lemma {:induction false} RepeatsKeyExactly<T>(xs: seq<T>, step: T -> Result<Option<Entry>>)
    ensures DistinctKeys(Collected(xs, step)) <==> !RepeatsKey(xs, step)
    decreases |xs|
  {
    if RepeatsKey(xs, step) {
      var i, j :| SameKeyAt(xs, step, i, j);
      CollectedRepeatsKey(xs, step, i, j, step(xs[i]).value.value, step(xs[j]).value.value);
    }
    if xs != [] && !DistinctKeys(Collected(xs, step)) {
      var rest := xs[1..];
      var tail := Collected(rest, step);
      RepeatsKeyExactly(rest, step);
      if step(xs[0]).Ok? && step(xs[0]).value.Some? {
        var e := step(xs[0]).value.value;
        assert Collected(xs, step) == [e] + tail;
        DistinctKeysCons([e] + tail);
        assert ([e] + tail)[1..] == tail;
        if e.0 in KeysOf(tail) {
          var e' :| e' in tail && e'.0 == e.0;
          var k :| 0 <= k < |rest| && step(rest[k]) == Ok(Some(e'));
          assert rest[k] == xs[k + 1];
          assert SameKeyAt(xs, step, 0, k + 1);
        } else {
          var a, b :| SameKeyAt(rest, step, a, b);
          SameKeyAtTail(xs, step, a, b);
        }
      } else {
        assert Collected(xs, step) == tail;
        var a, b :| SameKeyAt(rest, step, a, b);
        SameKeyAtTail(xs, step, a, b);
      }
    }
  }

  /** The stream `xs` through `step`, collected with toMap: it succeeds exactly
      when no element fails a stage and no key reaches the collector twice, and
      then it is the map of the entries that reached the collector. */
  function Collect<T>(xs: seq<T>, step: T -> Result<Option<Entry>>): (r: Result<map<Type, Type>>)
    ensures r.Ok? <==> AllSucceed(xs, step) && DistinctKeys(Collected(xs, step))
    ensures r.Ok? <==> AllSucceed(xs, step) && !RepeatsKey(xs, step)
    ensures r.Ok? ==> r == ToMap(Collected(xs, step))
  {
    RepeatsKeyExactly(xs, step);
    CollectIntoStaged(xs, step, map[]);
    CollectInto(xs, step, map[])
  }

  /** What a successful collection holds, and that a failing element fails it. */
  lemma CollectFacts<T>(xs: seq<T>, step: T -> Result<Option<Entry>>)
    ensures (exists x :: x in xs && step(x).Err?) ==> Collect(xs, step).Err?
    ensures Collect(xs, step).Ok? ==> forall x :: x in xs ==>
      && step(x).Ok?
      && (step(x).value.Some? ==> var e := step(x).value.value;
           e.0 in Collect(xs, step).value && Collect(xs, step).value[e.0] == e.1)
    ensures Collect(xs, step).Ok? ==> forall k :: k in Collect(xs, step).value ==>
      exists x :: x in xs && step(x) == Ok(Some((k, Collect(xs, step).value[k])))
  {
    var r := Collect(xs, step);
    if r.Ok? {
      var m := r.value;
      var es := Collected(xs, step);
      forall x | x in xs && step(x).Ok? && step(x).value.Some?
        ensures step(x).value.value in es
      {
        var i :| 0 <= i < |xs| && xs[i] == x;
      }
      forall k | k in m ensures exists x :: x in xs && step(x) == Ok(Some((k, m[k]))) {
        var e :| e in es && e.0 == k;
        var i :| 0 <= i < |xs| && step(xs[i]) == Ok(Some(e));
        assert xs[i] in xs;
      }
    }
  }

  /** Two elements whose entries share a key, even with equal values, make the
      collected entries repeat a key. */
  lemma {:induction false} CollectedRepeatsKey<T>(xs: seq<T>, step: T -> Result<Option<Entry>>, i: nat, j: nat, e1: Entry, e2: Entry)
    requires i < j < |xs|
    requires step(xs[i]) == Ok(Some(e1)) && step(xs[j]) == Ok(Some(e2)) && e1.0 == e2.0
    ensures !DistinctKeys(Collected(xs, step))
    decreases |xs|
  {
    var rest := xs[1..];
    var es := Collected(xs, step);
    var tail := Collected(rest, step);
    if i == 0 {
      assert rest[j - 1] == xs[j];
      assert e2 in tail;
      var k :| 0 <= k < |tail| && tail[k] == e2;
      assert es == [e1] + tail;
      assert es[0].0 == es[k + 1].0;
    } else {
      assert rest[i - 1] == xs[i] && rest[j - 1] == xs[j];
      CollectedRepeatsKey(rest, step, i - 1, j - 1, e1, e2);
      var a, b :| 0 <= a < b < |tail| && tail[a].0 == tail[b].0;
      var off := |es| - |tail|;
      assert es == es[..off] + tail;
      assert es[a + off] == tail[a] && es[b + off] == tail[b];
    }
  }

  /** Elements every stage drops, anywhere in the stream, change nothing. */
  lemma {:induction false} CollectSkipsDropped<T>(xs: seq<T>, ys: seq<T>, zs: seq<T>, step: T -> Result<Option<Entry>>)
    requires forall y :: y in ys ==> step(y) == Ok(None)
    ensures Collect(xs + ys + zs, step) == Collect(xs + zs, step)
  {
    CollectIntoSkips(xs, ys, zs, step, map[]);
  }

  lemma {:induction false} CollectIntoSkipsPrefix<T>(ys: seq<T>, zs: seq<T>, step: T -> Result<Option<Entry>>, acc: map<Type, Type>)
    requires forall y :: y in ys ==> step(y) == Ok(None)
    ensures CollectInto(ys + zs, step, acc) == CollectInto(zs, step, acc)
    decreases |ys|
  {
    if ys == [] {
      assert ys + zs == zs;
    } else {
      assert (ys + zs)[0] == ys[0] && (ys + zs)[1..] == ys[1..] + zs;
      CollectIntoSkipsPrefix(ys[1..], zs, step, acc);
    }
  }

  lemma {:induction false} CollectIntoSkips<T>(xs: seq<T>, ys: seq<T>, zs: seq<T>, step: T -> Result<Option<Entry>>, acc: map<Type, Type>)
    requires forall y :: y in ys ==> step(y) == Ok(None)
    ensures CollectInto(xs + ys + zs, step, acc) == CollectInto(xs + zs, step, acc)
    decreases |xs|
  {
    if xs == [] {
      assert xs + ys + zs == ys + zs && xs + zs == zs;
      CollectIntoSkipsPrefix(ys, zs, step, acc);
    } else {
      assert (xs + ys + zs)[0] == xs[0] && (xs + ys + zs)[1..] == xs[1..] + ys + zs;
      assert (xs + zs)[0] == xs[0] && (xs + zs)[1..] == xs[1..] + zs;
      match step(xs[0])
      case Err(_) =>
      case Ok(None) =>
        CollectIntoSkips(xs[1..], ys, zs, step, acc);
      case Ok(Some(e)) =>
        if e.0 !in acc {
          CollectIntoSkips(xs[1..], ys, zs, step, acc[e.0 := e.1]);
        }
    }
  }
}
