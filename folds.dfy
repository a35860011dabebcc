/** The shapes of the decoding loops in the settings store: convert every element of a
    list, stopping at the first exception; convert-or-skip every entry of a map; and put
    key/value pairs into a map one after another, a later key replacing an earlier one. */
module Folds {
  import opened Wrappers

  /** Converts every element in order; the first failure aborts. */
  function MapAll<A, B>(xs: seq<A>, f: A -> Result<B, Error>): (r: Result<seq<B>, Error>)
    ensures r.Success? <==> forall i :: 0 <= i < |xs| ==> f(xs[i]).Success?
    ensures r.Success? ==> |r.value| == |xs| && forall i :: 0 <= i < |xs| ==> r.value[i] == f(xs[i]).value
    ensures r.Failure? ==> exists i :: 0 <= i < |xs| && f(xs[i]) == Failure(r.error)
                                       && forall j :: 0 <= j < i ==> f(xs[j]).Success?
    decreases |xs|
  {
    if xs == [] then Success([])
    else
      var init := xs[..|xs| - 1];
      match MapAll(init, f)
      case Failure(e) => Failure(e)
      case Success(ys) =>
        match f(xs[|xs| - 1])
        case Failure(e) => Failure(e)
        case Success(y) => Success(ys + [y])
  }

  /** Converts every element in order, dropping those that convert to `None`;
      the first failure aborts. */
  function Collect<A, B>(xs: seq<A>, f: A -> Result<Option<B>, Error>): (r: Result<seq<B>, Error>)
    ensures r.Success? <==> forall i :: 0 <= i < |xs| ==> f(xs[i]).Success?
    ensures r.Failure? ==> exists i :: 0 <= i < |xs| && f(xs[i]) == Failure(r.error)
                                       && forall j :: 0 <= j < i ==> f(xs[j]).Success?
    decreases |xs|
  {
    if xs == [] then Success([])
    else
      var init := xs[..|xs| - 1];
      match Collect(init, f)
      case Failure(e) => Failure(e)
      case Success(ys) =>
        match f(xs[|xs| - 1])
        case Failure(e) => Failure(e)
        case Success(None) => Success(ys)
        case Success(Some(y)) => Success(ys + [y])
  }

  /** Puts the pairs into `m` from first to last (`Map.put` in a loop). */
  function PutAll<K, V>(m: map<K, V>, kvs: seq<(K, V)>): map<K, V>
    decreases |kvs|
  {
    if kvs == [] then m
    else PutAll(m, kvs[..|kvs| - 1])[kvs[|kvs| - 1].0 := kvs[|kvs| - 1].1]
  }

  /** The element `x` is converted to a pair with key `k`. */
  ghost predicate Yields<A, K, V>(f: A -> Result<Option<(K, V)>, Error>, x: A, k: K) {
    f(x).Success? && f(x).value.Some? && f(x).value.value.0 == k
  }

  /** After collecting and putting, a key is present exactly when some element yields it. */
  lemma {:induction false} CollectedKeys<A, K, V>(xs: seq<A>, f: A -> Result<Option<(K, V)>, Error>, k: K)
    requires Collect(xs, f).Success?
    ensures k in PutAll(map[], Collect(xs, f).value) <==> exists i :: 0 <= i < |xs| && Yields(f, xs[i], k)
    decreases |xs|
  {
    if xs != [] {
      var init := xs[..|xs| - 1];
      CollectedKeys(init, f, k);
      assert forall i :: 0 <= i < |init| ==> init[i] == xs[i];
      if Yields(f, xs[|xs| - 1], k) {
      } else if exists i :: 0 <= i < |xs| && Yields(f, xs[i], k) {
        var i :| 0 <= i < |xs| && Yields(f, xs[i], k);
        assert i < |init| && Yields(f, init[i], k);
      }
    }
  }

  /** After collecting and putting, a key holds the value of the LAST element that yields it. */
  lemma {:induction false} CollectedLastWins<A, K, V>(xs: seq<A>, f: A -> Result<Option<(K, V)>, Error>, i: nat, k: K)
    requires Collect(xs, f).Success?
    requires i < |xs| && Yields(f, xs[i], k)
    requires forall j :: i < j < |xs| ==> !Yields(f, xs[j], k)
    ensures k in PutAll(map[], Collect(xs, f).value)
    ensures PutAll(map[], Collect(xs, f).value)[k] == f(xs[i]).value.value.1
    decreases |xs|
  {
    var init := xs[..|xs| - 1];
    if i == |xs| - 1 {
    } else {
      assert forall j :: 0 <= j < |init| ==> init[j] == xs[j];
      CollectedLastWins(init, f, i, k);
    }
  }

  /** One more converted element of a prefix: the conversion of the longer prefix. */
  lemma MapAllPrefixStep<A, B>(xs: seq<A>, f: A -> Result<B, Error>, j: nat)
    requires j < |xs| && MapAll(xs[..j], f).Success? && f(xs[j]).Success?
    ensures MapAll(xs[..j + 1], f) == Success(MapAll(xs[..j], f).value + [f(xs[j]).value])
  {
    assert xs[..j + 1][..j] == xs[..j];
  }

  /** One more collected element of a prefix: it is dropped or appended. */
  lemma CollectPrefixStep<A, B>(xs: seq<A>, f: A -> Result<Option<B>, Error>, j: nat)
    requires j < |xs| && Collect(xs[..j], f).Success? && f(xs[j]).Success?
    ensures f(xs[j]).value.None? ==> Collect(xs[..j + 1], f) == Collect(xs[..j], f)
    ensures f(xs[j]).value.Some? ==>
      Collect(xs[..j + 1], f) == Success(Collect(xs[..j], f).value + [f(xs[j]).value.value])
  {
    assert xs[..j + 1][..j] == xs[..j];
  }

  /** Putting one more pair updates its key. */
  lemma PutAllStep<K, V>(m: map<K, V>, kvs: seq<(K, V)>, kv: (K, V))
    ensures PutAll(m, kvs + [kv]) == PutAll(m, kvs)[kv.0 := kv.1]
  {
    assert (kvs + [kv])[..|kvs|] == kvs;
  }

  /** Converting one more element extends a successful conversion by its value. */
  lemma MapAllStep<A, B>(xs: seq<A>, f: A -> Result<B, Error>, x: A)
    requires MapAll(xs, f).Success? && f(x).Success?
    ensures MapAll(xs + [x], f) == Success(MapAll(xs, f).value + [f(x).value])
  {
    assert (xs + [x])[..|xs|] == xs;
  }

  /** Converting a concatenation converts the front, then the back. */
  lemma {:induction false} MapAllConcat<A, B>(xs: seq<A>, ys: seq<A>, f: A -> Result<B, Error>)
    ensures MapAll(xs + ys, f) ==
      match MapAll(xs, f)
      case Failure(e) => Failure(e)
      case Success(front) =>
        match MapAll(ys, f)
        case Failure(e) => Failure(e)
        case Success(back) => Success(front + back)
    decreases |ys|
  {
    if ys == [] {
      assert xs + ys == xs;
      if MapAll(xs, f).Success? {
        assert MapAll(xs, f).value + [] == MapAll(xs, f).value;
      }
    } else {
      var init := ys[..|ys| - 1];
      assert (xs + ys)[..|xs + ys| - 1] == xs + init;
      assert (xs + ys)[|xs + ys| - 1] == ys[|ys| - 1];
      MapAllConcat(xs, init, f);
      if MapAll(xs, f).Success? && MapAll(init, f).Success? && f(ys[|ys| - 1]).Success? {
        var front, middle := MapAll(xs, f).value, MapAll(init, f).value;
        assert front + middle + [f(ys[|ys| - 1]).value] == front + (middle + [f(ys[|ys| - 1]).value]);
      }
    }
  }

  /** Once the first i elements convert and element i fails, the whole conversion fails with
      element i's exception. */
  lemma CollectFailsAt<A, B>(xs: seq<A>, f: A -> Result<Option<B>, Error>, i: nat)
    requires i < |xs| && Collect(xs[..i], f).Success? && f(xs[i]).Failure?
    ensures Collect(xs, f) == Failure(f(xs[i]).error)
  {
    forall j | 0 <= j < i
      ensures f(xs[j]).Success?
    {
      assert xs[..i][j] == xs[j];
    }
    var k :| 0 <= k < |xs| && f(xs[k]) == Failure(Collect(xs, f).error)
             && forall j :: 0 <= j < k ==> f(xs[j]).Success?;
    assert !(k < i) && !(i < k);
  }

  lemma MapAllFailsAt<A, B>(xs: seq<A>, f: A -> Result<B, Error>, i: nat)
    requires i < |xs| && MapAll(xs[..i], f).Success? && f(xs[i]).Failure?
    ensures MapAll(xs, f) == Failure(f(xs[i]).error)
  {
    forall j | 0 <= j < i
      ensures f(xs[j]).Success?
    {
      assert xs[..i][j] == xs[j];
    }
    var k :| 0 <= k < |xs| && f(xs[k]) == Failure(MapAll(xs, f).error)
             && forall j :: 0 <= j < k ==> f(xs[j]).Success?;
    assert !(k < i) && !(i < k);
  }
}
