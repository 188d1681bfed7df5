/** `Option` and `Outcome`, shared by every module of the model, and the
    folds of the loops that go over per-item outcomes. */
module Wrappers {

  /** A value that may be absent (Python's `None`). */
  datatype Option<+T> = None | Some(value: T) {
    function GetOr(default: T): T {
      match this
      case Some(v) => v
      case None => default
    }
  }

  /** What a Python call does: return a value, or raise an exception that its
      caller does not catch. */
  datatype Outcome<+T> = Returned(value: T) | Raised

  // ---------------------------------------------------------------------
  // Loops over outcomes

  /** The values a loop collects from per-item outcomes, in order: the
      kept ones, or `Raised` as soon as one raises. */
  function Collect<T>(outs: seq<Outcome<Option<T>>>): Outcome<seq<T>>
  {
    if |outs| == 0 then Returned([])
    else
      match Collect(outs[..|outs| - 1])
      case Raised => Raised
      case Returned(done) =>
        match outs[|outs| - 1]
        case Raised => Raised
        case Returned(None) => Returned(done)
        case Returned(Some(c)) => Returned(done + [c])
  }

  lemma CollectSnoc<T>(outs: seq<Outcome<Option<T>>>, i: nat)
    requires i < |outs|
    ensures Collect(outs[..i + 1]) ==
      match Collect(outs[..i])
      case Raised => Raised
      case Returned(done) =>
        match outs[i]
        case Raised => Raised
        case Returned(None) => Returned(done)
        case Returned(Some(c)) => Returned(done + [c])
  {
    assert outs[..i + 1][..i] == outs[..i];
  }

  /** Collecting two parts one after the other: the kept values keep their
      order. */
  lemma {:induction false} CollectAppend<T>(a: seq<Outcome<Option<T>>>, b: seq<Outcome<Option<T>>>)
    ensures Collect(a + b) ==
      match (Collect(a), Collect(b))
      case (Returned(x), Returned(y)) => Returned(x + y)
      case _ => Raised
    decreases |b|
  {
    if |b| == 0 {
      assert a + b == a;
      match Collect(a) {
        case Returned(x) => assert x + [] == x;
        case Raised =>
      }
    } else {
      var init := b[..|b| - 1];
      assert (a + b)[..|a + b| - 1] == a + init;
      assert (a + b)[|a + b| - 1] == b[|b| - 1];
      CollectAppend(a, init);
      match (Collect(a), Collect(init)) {
        case (Returned(x), Returned(y)) =>
          assert forall z :: x + (y + z) == (x + y) + z;
        case _ =>
      }
    }
  }

  lemma CollectSingle<T>(out: Outcome<Option<T>>)
    ensures Collect([out]) ==
      match out
      case Raised => Raised
      case Returned(None) => Returned([])
      case Returned(Some(c)) => Returned([c])
  {
    assert [out][..0] == [];
    match out {
      case Returned(Some(c)) => assert [] + [c] == [c];
      case _ =>
    }
  }

  /** Collecting raises exactly when one outcome raised. */
  lemma {:induction false} CollectRaises<T>(outs: seq<Outcome<Option<T>>>)
    ensures Collect(outs).Raised? <==> exists i | 0 <= i < |outs| :: outs[i].Raised?
    decreases |outs|
  {
    if |outs| > 0 {
      var n := |outs| - 1;
      var init := outs[..n];
      CollectRaises(init);
      if exists i | 0 <= i < |outs| :: outs[i].Raised? {
        var i :| 0 <= i < |outs| && outs[i].Raised?;
        if i < n {
          assert init[i] == outs[i];
        }
      }
      if exists i | 0 <= i < n :: init[i].Raised? {
        var i :| 0 <= i < n && init[i].Raised?;
        assert init[i] == outs[i];
      }
    }
  }

  /** Otherwise a value is collected exactly when an outcome gave it. */
  lemma {:induction false} CollectKeeps<T>(outs: seq<Outcome<Option<T>>>, c: T)
    requires Collect(outs).Returned?
    ensures c in Collect(outs).value <==> exists i | 0 <= i < |outs| :: outs[i] == Returned(Some(c))
    decreases |outs|
  {
    if |outs| > 0 {
      var n := |outs| - 1;
      var init := outs[..n];
      CollectKeeps(init, c);
      if exists i | 0 <= i < |outs| :: outs[i] == Returned(Some(c)) {
        var i :| 0 <= i < |outs| && outs[i] == Returned(Some(c));
        if i < n {
          assert init[i] == outs[i];
        }
      }
      if exists i | 0 <= i < n :: init[i] == Returned(Some(c)) {
        var i :| 0 <= i < n && init[i] == Returned(Some(c));
        assert init[i] == outs[i];
      }
    }
  }

  lemma {:induction false} CollectRaisedStays<T>(outs: seq<Outcome<Option<T>>>, i: nat)
    requires i <= |outs| && Collect(outs[..i]).Raised?
    ensures Collect(outs).Raised?
    decreases |outs| - i
  {
    if i < |outs| {
      CollectSnoc(outs, i);
      CollectRaisedStays(outs, i + 1);
    } else {
      assert outs[..i] == outs;
    }
  }

  /** The values of the outcomes that did not raise, in order. */
  function Kept<T>(outs: seq<Outcome<T>>): (r: seq<T>)
    ensures |r| <= |outs|
  {
    if |outs| == 0 then []
    else
      Kept(outs[..|outs| - 1]) +
      match outs[|outs| - 1]
      case Raised => []
      case Returned(v) => [v]
  }

  lemma KeptSnoc<T>(outs: seq<Outcome<T>>, out: Outcome<T>)
    ensures Kept(outs + [out]) == Kept(outs) + match out case Raised => [] case Returned(v) => [v]
  {
    assert (outs + [out])[..|outs|] == outs;
  }

  /** When nothing raises, every value is kept, in place. */
  lemma {:induction false} KeptAll<T>(outs: seq<Outcome<T>>)
    requires forall k | 0 <= k < |outs| :: outs[k].Returned?
    ensures |Kept(outs)| == |outs|
    ensures forall k | 0 <= k < |outs| :: Kept(outs)[k] == outs[k].value
    decreases |outs|
  {
    if |outs| > 0 {
      var n := |outs| - 1;
      var init := outs[..n];
      assert forall k | 0 <= k < n :: init[k] == outs[k];
      KeptAll(init);
      assert outs == init + [outs[n]];
      KeptSnoc(init, outs[n]);
    }
  }

  /** Every kept value is the value of an outcome that did not raise. */
  lemma {:induction false} KeptFrom<T>(outs: seq<Outcome<T>>, k: nat)
    requires k < |Kept(outs)|
    ensures exists j | 0 <= j < |outs| :: outs[j] == Returned(Kept(outs)[k])
    decreases |outs|
  {
    var n := |outs| - 1;
    var init := outs[..n];
    assert outs == init + [outs[n]];
    KeptSnoc(init, outs[n]);
    if k < |Kept(init)| {
      KeptFrom(init, k);
      var j :| 0 <= j < |init| && init[j] == Returned(Kept(init)[k]);
      assert init[j] == outs[j];
    }
  }
}
