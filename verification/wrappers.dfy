/** Outcome types shared by every module of the model. */
module Wrappers {

  datatype Option<+T> = None | Some(value: T) {
    function GetOr(default: T): T {
      match this
      case Some(v) => v
      case None => default
    }
  }

  /** What the C code does when it neither returns nor raises an error:
      `Hangs` is a loop that can never exit, `MemoryFault` a read or write
      outside the memory the program owns (undefined behaviour in C). */
  datatype Fault = Hangs | MemoryFault

  /** The result of a computation that may not complete. */
  datatype Run<+T> = Done(value: T) | Stuck(fault: Fault)

  /** Sequential composition of two text-producing runs: the first fault wins. */
  function Then(a: Run<string>, b: Run<string>): Run<string> {
    match a
    case Stuck(f) => Stuck(f)
    case Done(x) =>
      match b
      case Stuck(f) => Stuck(f)
      case Done(y) => Done(x + y)
  }

  lemma ThenAssociative(a: Run<string>, b: Run<string>, c: Run<string>)
    ensures Then(Then(a, b), c) == Then(a, Then(b, c))
  {
    if a.Done? && b.Done? && c.Done? {
      assert (a.value + b.value) + c.value == a.value + (b.value + c.value);
    }
  }

  /** Runs one after another, left to right. */
  function Concat(runs: seq<Run<string>>): Run<string> {
    if |runs| == 0 then Done("") else Then(Concat(runs[..|runs| - 1]), runs[|runs| - 1])
  }

  /** Concat is Done exactly when every run is, and then it is their texts in order. */
  lemma {:induction false} ConcatSnoc(runs: seq<Run<string>>, i: nat)
    requires i < |runs| && Concat(runs[..i]).Done?
    ensures Concat(runs[..i + 1]).Done? <==> runs[i].Done?
    ensures runs[i].Done? ==> Concat(runs[..i + 1]).value == Concat(runs[..i]).value + runs[i].value
  {
    assert runs[..i + 1][..i] == runs[..i];
  }

  /** One iteration of a loop that performs the runs in order, having
      appended the text of the first i to t0: a stuck run leaves the whole
      sequence stuck, and a finished one extends the text to the first i + 1. */
  lemma LoopStep(t0: string, runs: seq<Run<string>>, i: nat, text: string)
    requires i < |runs| && Concat(runs[..i]).Done?
    ensures runs[i].Stuck? ==> Concat(runs).Stuck?
    ensures runs[i].Done? && text == t0 + Concat(runs[..i]).value + runs[i].value ==>
      Concat(runs[..i + 1]).Done? && text == t0 + Concat(runs[..i + 1]).value
  {
    ConcatSnoc(runs, i);
    if runs[i].Stuck? {
      ConcatStuckPropagates(runs, i + 1, |runs|);
      assert runs[..|runs|] == runs;
    } else {
      assert t0 + Concat(runs[..i]).value + runs[i].value == t0 + (Concat(runs[..i]).value + runs[i].value);
    }
  }

  /** The loop's last prefix is the whole sequence. */
  lemma LoopEnd(runs: seq<Run<string>>)
    ensures Concat(runs[..|runs|]) == Concat(runs)
  {
    assert runs[..|runs|] == runs;
  }

  /** Once a prefix of the runs is stuck, every longer prefix is stuck with it. */
  lemma {:induction false} ConcatStuckPropagates(runs: seq<Run<string>>, n: nat, m: nat)
    requires n <= m <= |runs| && Concat(runs[..n]).Stuck?
    ensures Concat(runs[..m]).Stuck?
    decreases m - n
  {
    if m > n {
      ConcatStuckPropagates(runs, n, m - 1);
      assert runs[..m][..m - 1] == runs[..m - 1];
    }
  }

  /** Running two lists of runs one after the other is running their concatenation. */
  lemma {:induction false} ConcatAppend(a: seq<Run<string>>, b: seq<Run<string>>)
    ensures Concat(a + b) == Then(Concat(a), Concat(b))
    decreases |b|
  {
    if |b| == 0 {
      assert a + b == a;
      var c := Concat(a);
      if c.Done? {
        assert c.value + "" == c.value;
      }
    } else {
      var front := b[..|b| - 1];
      assert (a + b)[..|a + b| - 1] == a + front;
      ConcatAppend(a, front);
      ThenAssociative(Concat(a), Concat(front), b[|b| - 1]);
    }
  }

  /** Concatenation around one run in the middle. */
  lemma ConcatAround(a: seq<Run<string>>, x: Run<string>, b: seq<Run<string>>)
    ensures Concat(a + [x] + b) == Then(Concat(a), Then(x, Concat(b)))
  {
    ConcatAppend(a + [x], b);
    assert (a + [x])[..|a|] == a;
    ThenAssociative(Concat(a), x, Concat(b));
  }

  /** In a finished concatenation every run finished, and its text sits
      right after the text of the runs before it. */
  lemma ConcatPart(runs: seq<Run<string>>, i: nat)
    requires i < |runs| && Concat(runs).Done?
    ensures Concat(runs[..i]).Done? && runs[i].Done?
    ensures |Concat(runs[..i]).value| + |runs[i].value| <= |Concat(runs).value|
    ensures Concat(runs).value[|Concat(runs[..i]).value|..|Concat(runs[..i]).value| + |runs[i].value|] == runs[i].value
  {
    assert runs == runs[..i + 1] + runs[i + 1..];
    ConcatAppend(runs[..i + 1], runs[i + 1..]);
    assert runs[..i + 1][..i] == runs[..i];
    var x := Concat(runs[..i]).value;
    var y := runs[i].value;
    var z := Concat(runs[i + 1..]).value;
    assert Concat(runs).value == (x + y) + z;
    assert ((x + y) + z)[|x|..|x| + |y|] == y;
  }

  /** Runs that produce nothing after position n add nothing. */
  lemma {:induction false} ConcatEmptyTail(runs: seq<Run<string>>, n: nat)
    requires n <= |runs|
    requires forall k :: n <= k < |runs| ==> runs[k] == Done("")
    ensures Concat(runs) == Concat(runs[..n])
    decreases |runs|
  {
    if |runs| > n {
      var front := runs[..|runs| - 1];
      ConcatEmptyTail(front, n);
      assert front[..n] == runs[..n];
      var c := Concat(front);
      if c.Done? {
        assert c.value + "" == c.value;
      }
    } else {
      assert runs[..n] == runs;
    }
  }

  /** When every run after position m produces nothing, the whole ends
      with what run m produced. */
  lemma ConcatThroughLast(runs: seq<Run<string>>, m: nat)
    requires m < |runs| && Concat(runs).Done?
    requires forall k :: m < k < |runs| ==> runs[k] == Done("")
    ensures Concat(runs[..m]).Done? && runs[m].Done?
    ensures Concat(runs).value == Concat(runs[..m]).value + runs[m].value
  {
    ConcatEmptyTail(runs, m + 1);
    assert runs[..m + 1][..m] == runs[..m];
  }

  /** The platform the source is compiled for (`#ifdef _WIN32` / `__linux__`). */
  datatype Platform = Windows | Linux
}
