/** `write_custom_command` of src/generator.cpp: the ninja statements for a
    chain of pre- or post-build commands, with `${in}` / `${out}` replaced
    in the shell command. */
module Commands {
  import opened Wrappers
  import opened Str
  import opened Project
  import opened Stream

  const InToken: string := "${in}"
  const OutToken: string := "${out}"

  /** Each item preceded by `lead` (the ` ../%s` loops). */
  function Listed(xs: seq<string>, lead: string): string
  {
    if |xs| == 0 then "" else Listed(xs[..|xs| - 1], lead) + lead + xs[|xs| - 1]
  }

  /** The items separated by single spaces (the `j == 0 ? "%s" : " %s"` loops). */
  function Joined(xs: seq<string>): (r: string)
  {
    if |xs| == 0 then ""
    else if |xs| == 1 then xs[0]
    else Joined(xs[..|xs| - 1]) + " " + xs[|xs| - 1]
  }

  /** Where the placeholders sit: each found one lies inside the command,
      and when both are found they do not overlap. */
  predicate Placed(c: string, inPos: int, outPos: int) {
    && |c| < NPOS
    && (inPos != NPOS ==> 0 <= inPos && inPos + 5 <= |c|)
    && (outPos != NPOS ==> 0 <= outPos && outPos + 6 <= |c|)
    && (inPos != NPOS && outPos != NPOS && inPos < outPos ==> inPos + 5 <= outPos)
    && (inPos != NPOS && outPos != NPOS && outPos < inPos ==> outPos + 6 <= inPos)
    && (inPos != NPOS || outPos != NPOS ==> inPos != outPos)
  }

  /** The `cmd = ...` line for placeholders found at inPos and outPos
      (NPOS when absent). */
  function Substituted(c: string, inPos: int, outPos: int, ins: seq<string>, outs: seq<string>): string
    requires Placed(c, inPos, outPos)
  {
    if inPos == NPOS && outPos == NPOS then "\n    cmd = " + c + "\n"
    else if inPos < outPos then
      "\n    cmd = " + c[..inPos] + Joined(ins)
        + (if outPos != NPOS then c[inPos + 5..outPos] + Joined(outs) + c[outPos + 6..] else c[inPos + 5..])
        + "\n"
    else
      "\n    cmd = " + c[..outPos] + Joined(outs)
        + (if inPos != NPOS then " " + c[outPos + 6..inPos] + Joined(ins) + c[inPos + 5..] else c[outPos + 5..])
        + "\n"
  }

  /** The `cmd = ...` line of one step. The two searches read past the end
      of a command shorter than `${out}` minus one (their unsigned loop
      bound wraps around). */
  function CmdBody(c: string, ins: seq<string>, outs: seq<string>): Run<string>
    requires NoNul(c) && |c| < NPOS
  {
    if |c| + 1 < |OutToken| then Stuck(MemoryFault)
    else
      var inPos, outPos := IndexOf(c, InToken), IndexOf(c, OutToken);
      TokensApart(c, inPos, outPos);
      Done(Substituted(c, inPos, outPos, ins, outs))
  }

  /** The two placeholders cannot overlap: each starts with the only `$` it holds. */
  lemma TokensApart(c: string, inPos: int, outPos: int)
    requires |c| < NPOS && inPos == IndexOf(c, InToken) && outPos == IndexOf(c, OutToken)
    ensures Placed(c, inPos, outPos)
  {
    IndexOfSpec(c, InToken);
    IndexOfSpec(c, OutToken);
    if inPos != NPOS && outPos != NPOS {
      TokensDisjoint(c, inPos, outPos);
    }
  }

  /** Occurrences of `${in}` and `${out}` never overlap. */
  lemma TokensDisjoint(c: string, i: int, o: int)
    requires MatchAt(c, InToken, i) && MatchAt(c, OutToken, o)
    ensures i != o && (i < o ==> i + 5 <= o) && (o < i ==> o + 6 <= i)
  {
    assert c[i..i + 5] == ['$', '{', 'i', 'n', '}'];
    assert c[o..o + 6] == ['$', '{', 'o', 'u', 't', '}'];
    assert c[i + 2] == c[i..i + 5][2] && c[o + 2] == c[o..o + 6][2];
    assert c[i] == '$' && c[o] == '$' by {
      assert c[i] == c[i..i + 5][0] && c[o] == c[o..o + 6][0];
    }
    forall k | i < k < i + 5
      ensures c[k] != '$'
    {
      assert c[k] == c[i..i + 5][k - i];
    }
    forall k | o < k < o + 6
      ensures c[k] != '$'
    {
      assert c[k] == c[o..o + 6][k - o];
    }
  }

  /** One differing character rules a match out. */
  lemma Mismatch(s: string, b: string, j: int, k: nat)
    requires k < |b| && (0 <= j + k < |s| ==> s[j + k] != b[k])
    ensures !MatchAt(s, b, j)
  {
    if 0 <= j && j + |b| <= |s| {
      assert s[j..j + |b|][k] == s[j + k];
    }
  }

  /** ` || <chain>` when the statements are chained to an order-only dependency. */
  function ChainSuffix(chain: Option<string>): string {
    match chain
    case Some(ch) => " || " + ch
    case None => ""
  }

  /** ` | ../<first output of step i-1>` for every step after the first. */
  function PreviousSuffix(cmds: seq<CustomCommand>, i: nat): string
    requires i < |cmds| && (i > 0 ==> |cmds[i - 1].outputs| > 0)
  {
    if i == 0 then "" else " | ../" + cmds[i - 1].outputs[0]
  }

  predicate CmdsWellFormed(cmds: seq<CustomCommand>) {
    forall i :: 0 <= i < |cmds| ==> cmds[i].cmd.Some? ==> NoNul(cmds[i].cmd.value) && |cmds[i].cmd.value| < NPOS
  }

  /** Step i reads its own `out[0]` (and `in[0]` for a copy) and the
      previous step's `out[0]` without checking that they exist. */
  predicate StepReadsExist(cmds: seq<CustomCommand>, i: nat)
    requires i < |cmds|
  {
    && |cmds[i].outputs| > 0
    && (i > 0 ==> |cmds[i - 1].outputs| > 0)
    && (cmds[i].cmd.None? ==> |cmds[i].inputs| > 0)
  }

  /** The statement head of step i, up to its order-only part:
      `build ../out0 ../out1 ...: cmd ../in0 ...` for a command,
      `build ../out0: copy ../in0` for a copy. */
  function StepHead(cmds: seq<CustomCommand>, i: nat): string
    requires i < |cmds| && StepReadsExist(cmds, i)
  {
    "build ../" + cmds[i].outputs[0] + HeadRest(cmds[i])
  }

  /** The part of a head after the first output. */
  function HeadRest(c: CustomCommand): string
    requires |c.outputs| > 0 && (c.cmd.None? ==> |c.inputs| > 0)
  {
    if c.cmd.Some? then Listed(c.outputs[1..], " ../") + ": cmd" + Listed(c.inputs, " ../")
    else ": copy ../" + c.inputs[0]
  }

  /** What follows the order-only part of step i: the `cmd = ...` line, or
      the end of the line for a copy. */
  function StepTail(cmds: seq<CustomCommand>, i: nat): Run<string>
    requires i < |cmds| && CmdsWellFormed(cmds)
  {
    match cmds[i].cmd
    case Some(command) => CmdBody(command, cmds[i].inputs, cmds[i].outputs)
    case None => Done("\n")
  }

  /** The statement for step i. */
  function StepText(cmds: seq<CustomCommand>, i: nat, chain: Option<string>): Run<string>
    requires i < |cmds| && CmdsWellFormed(cmds)
  {
    if !StepReadsExist(cmds, i) then Stuck(MemoryFault)
    else Then(Done(StepHead(cmds, i) + PreviousSuffix(cmds, i) + ChainSuffix(chain)), StepTail(cmds, i))
  }

  /** The statement of every step, in order. */
  function Steps(cmds: seq<CustomCommand>, chain: Option<string>): seq<Run<string>>
    requires CmdsWellFormed(cmds)
  {
    seq(|cmds|, i requires 0 <= i < |cmds| => StepText(cmds, i, chain))
  }

  /** What `write_custom_command` appends: every step, then a blank line
      when there was at least one. */
  function ChainText(cmds: seq<CustomCommand>, chain: Option<string>): Run<string>
    requires CmdsWellFormed(cmds)
  {
    Then(Concat(Steps(cmds, chain)), Done(if |cmds| > 0 then "\n" else ""))
  }

  method WriteListed(xs: seq<string>, lead: string, f: OutFile)
    modifies f
    ensures f.text == old(f.text) + Listed(xs, lead)
  {
    for j := 0 to |xs|
      invariant f.text == old(f.text) + Listed(xs[..j], lead)
    {
      assert xs[..j + 1][..j] == xs[..j];
      ghost var before := f.text;
      f.Write(lead + xs[j]);
      assert f.text == old(f.text) + (Listed(xs[..j], lead) + lead + xs[j]);
    }
    assert xs[..|xs|] == xs;
  }

  method WriteJoined(xs: seq<string>, f: OutFile)
    modifies f
    ensures f.text == old(f.text) + Joined(xs)
  {
    for j := 0 to |xs|
      invariant f.text == old(f.text) + Joined(xs[..j])
    {
      assert xs[..j + 1][..j] == xs[..j];
      if j == 0 {
        f.Write(xs[j]);
        assert Joined(xs[..1]) == xs[0];
      } else {
        f.Write(" " + xs[j]);
        assert f.text == old(f.text) + (Joined(xs[..j]) + " " + xs[j]);
      }
    }
    assert xs[..|xs|] == xs;
  }

  /** The `${in}`/`${out}` substitution of `write_custom_command`. */
  method WriteCmdBody(c: string, ins: seq<string>, outs: seq<string>, f: OutFile) returns (fault: Option<Fault>)
    requires NoNul(c) && |c| < NPOS
    modifies f
    ensures fault.None? <==> CmdBody(c, ins, outs).Done?
    ensures fault.None? ==> f.text == old(f.text) + CmdBody(c, ins, outs).value
  {
    if |c| < 5 {
      return Some(MemoryFault);
    }
    assert c[..|c|] == c && InToken[..5] == InToken && OutToken[..6] == OutToken;
    var inPos := Find(c, InToken, NPOS, NPOS);
    var outPos := Find(c, OutToken, NPOS, NPOS);
    TokensApart(c, inPos, outPos);
    assert CmdBody(c, ins, outs) == Done(Substituted(c, inPos, outPos, ins, outs));
    WriteSubstituted(c, inPos, outPos, ins, outs, f);
    fault := None;
  }

  method WriteSubstituted(c: string, inPos: int, outPos: int, ins: seq<string>, outs: seq<string>, f: OutFile)
    requires Placed(c, inPos, outPos)
    modifies f
    ensures f.text == old(f.text) + Substituted(c, inPos, outPos, ins, outs)
  {
    ghost var t0 := f.text;
    if inPos != NPOS || outPos != NPOS {
      if inPos < outPos {
        f.Write("\n    cmd = " + c[..inPos]);
        WriteJoined(ins, f);
        ghost var t1 := f.text;
        if outPos != NPOS {
          f.Write(c[inPos + 5..outPos]);
          WriteJoined(outs, f);
          f.Write(c[outPos + 6..]);
          Assoc4(t1, c[inPos + 5..outPos], Joined(outs), c[outPos + 6..]);
        } else {
          f.Write(c[inPos + 5..]);
        }
        ghost var tail := f.text[|t1|..];
        assert f.text == t1 + tail;
        f.Write("\n");
        Assoc4(t0, "\n    cmd = " + c[..inPos], Joined(ins), tail);
        Assoc3(t0, "\n    cmd = " + c[..inPos] + Joined(ins) + tail, "\n");
      } else {
        f.Write("\n    cmd = " + c[..outPos]);
        WriteJoined(outs, f);
        ghost var t1 := f.text;
        if inPos != NPOS {
          f.Write(" " + c[outPos + 6..inPos]);
          WriteJoined(ins, f);
          f.Write(c[inPos + 5..]);
          Assoc4(t1, " " + c[outPos + 6..inPos], Joined(ins), c[inPos + 5..]);
        } else {
          f.Write(c[outPos + 5..]);
        }
        ghost var tail := f.text[|t1|..];
        assert f.text == t1 + tail;
        f.Write("\n");
        Assoc4(t0, "\n    cmd = " + c[..outPos], Joined(outs), tail);
        Assoc3(t0, "\n    cmd = " + c[..outPos] + Joined(outs) + tail, "\n");
      }
    } else {
      f.Write("\n    cmd = " + c + "\n");
    }
  }

  /** The statement head of a step. */
  method WriteStepHead(cmds: seq<CustomCommand>, i: nat, f: OutFile)
    requires i < |cmds| && StepReadsExist(cmds, i)
    modifies f
    ensures f.text == old(f.text) + StepHead(cmds, i)
  {
    var c := cmds[i];
    ghost var t0 := f.text;
    var first := "build ../" + c.outputs[0];
    f.Write(first);
    if c.cmd.Some? {
      WriteListed(c.outputs[1..], " ../", f);
      f.Write(": cmd");
      ghost var outs := Listed(c.outputs[1..], " ../") + ": cmd";
      Assoc3(t0 + first, Listed(c.outputs[1..], " ../"), ": cmd");
      WriteListed(c.inputs, " ../", f);
      Assoc3(t0 + first, outs, Listed(c.inputs, " ../"));
    } else {
      f.Write(": copy ../" + c.inputs[0]);
    }
    Assoc3(t0, first, HeadRest(c));
  }

  /** One step of the command loop of `write_custom_command`. */
  method WriteStep(cmds: seq<CustomCommand>, i: nat, chain: Option<string>, f: OutFile) returns (fault: Option<Fault>)
    requires i < |cmds| && CmdsWellFormed(cmds)
    modifies f
    ensures fault.None? <==> StepText(cmds, i, chain).Done?
    ensures fault.None? ==> f.text == old(f.text) + StepText(cmds, i, chain).value
  {
    var c := cmds[i];
    if !StepReadsExist(cmds, i) {
      return Some(MemoryFault);
    }
    ghost var t0 := f.text;
    WriteStepHead(cmds, i, f);
    if i > 0 {
      f.Write(" | ../" + cmds[i - 1].outputs[0]);
    }
    Assoc3(t0, StepHead(cmds, i), PreviousSuffix(cmds, i));
    if chain.Some? {
      f.Write(" || " + chain.value);
    }
    ghost var head := StepHead(cmds, i) + PreviousSuffix(cmds, i) + ChainSuffix(chain);
    Assoc3(t0, StepHead(cmds, i) + PreviousSuffix(cmds, i), ChainSuffix(chain));
    assert f.text == t0 + head;
    ghost var t1 := f.text;
    fault := WriteStepTail(cmds, i, f);
    if fault.None? {
      ghost var tv := StepTail(cmds, i).value;
      assert f.text == t1 + tv;
      assert StepText(cmds, i, chain) == Done(head + tv);
      Assoc3(t0, head, tv);
    }
  }

  /** The rest of a step after its order-only part. */
  method WriteStepTail(cmds: seq<CustomCommand>, i: nat, f: OutFile) returns (fault: Option<Fault>)
    requires i < |cmds| && CmdsWellFormed(cmds)
    modifies f
    ensures fault.None? <==> StepTail(cmds, i).Done?
    ensures fault.None? ==> f.text == old(f.text) + StepTail(cmds, i).value
  {
    var c := cmds[i];
    if c.cmd.Some? {
      fault := WriteCmdBody(c.cmd.value, c.inputs, c.outputs, f);
    } else {
      f.Write("\n");
      fault := None;
    }
  }

  /** The loop of `write_custom_command`: every step in order, stopping at
      the first that faults. */
  method WriteSteps(cmds: seq<CustomCommand>, chain: Option<string>, f: OutFile) returns (fault: Option<Fault>)
    requires CmdsWellFormed(cmds)
    modifies f
    ensures fault.None? <==> Concat(Steps(cmds, chain)).Done?
    ensures fault.None? ==> f.text == old(f.text) + Concat(Steps(cmds, chain)).value
  {
    ghost var t0 := f.text;
    ghost var runs := Steps(cmds, chain);
    for i := 0 to |cmds|
      invariant Concat(runs[..i]).Done?
      invariant f.text == t0 + Concat(runs[..i]).value
    {
      fault := WriteStep(cmds, i, chain, f);
      LoopStep(t0, runs, i, f.text);
      if fault.Some? {
        return;
      }
    }
    LoopEnd(runs);
    fault := None;
  }

  /** `write_custom_command`. */
  method WriteCustomCommand(cmds: seq<CustomCommand>, chain: Option<string>, f: OutFile) returns (fault: Option<Fault>)
    requires CmdsWellFormed(cmds)
    modifies f
    ensures fault.None? <==> ChainText(cmds, chain).Done?
    ensures fault.None? ==> f.text == old(f.text) + ChainText(cmds, chain).value
  {
    ghost var t0 := f.text;
    fault := WriteSteps(cmds, chain, f);
    if fault.Some? {
      return;
    }
    ghost var all := Concat(Steps(cmds, chain)).value;
    if |cmds| > 0 {
      f.Write("\n");
      Assoc3(t0, all, "\n");
    } else {
      assert all + "" == all;
    }
  }

  /** A placeholder found at k is the first one when none occurs before it. */
  lemma FirstTokenAt(s: string, tok: string, k: nat)
    requires |s| < NPOS && MatchAt(s, tok, k)
    requires forall j :: 0 <= j < k ==> !MatchAt(s, tok, j)
    ensures IndexOf(s, tok) == k
  {
    IndexOfSpec(s, tok);
  }

  /** A placeholder occurs nowhere in the stretch `seg` of `c` that starts at
      `a` and is followed by a `$`: not inside `seg`, and not across its end,
      since a placeholder holds `$` only as its first character. */
  lemma NoTokenIn(c: string, seg: string, a: nat, tok: string)
    requires a + |seg| < |c| && c[a..a + |seg|] == seg && c[a + |seg|] == '$'
    requires |tok| > 0 && forall k :: 0 < k < |tok| ==> tok[k] != '$'
    requires forall j :: !MatchAt(seg, tok, j)
    ensures forall j :: a <= j < a + |seg| ==> !MatchAt(c, tok, j)
  {
    var m := a + |seg|;
    forall j | a <= j < m ensures !MatchAt(c, tok, j) {
      if j + |tok| <= m {
        forall t | j <= t < j + |tok| ensures c[t] == seg[t - a] {
          assert c[a..m][t - a] == c[t];
        }
        assert c[j..j + |tok|] == seg[j - a..j - a + |tok|];
        assert !MatchAt(seg, tok, j - a);
      } else {
        Mismatch(c, tok, j, m - j);
      }
    }
  }

  /** A command holding neither placeholder is emitted verbatim. */
  lemma CmdBodyVerbatim(c: string, ins: seq<string>, outs: seq<string>)
    requires NoNul(c) && 5 <= |c| < NPOS
    requires forall j :: !MatchAt(c, InToken, j) && !MatchAt(c, OutToken, j)
    ensures CmdBody(c, ins, outs) == Done("\n    cmd = " + c + "\n")
  {
    IndexOfSpec(c, InToken);
    IndexOfSpec(c, OutToken);
  }

  /** `${in}` before `${out}`: the first of each is replaced by its
      space-separated list and all other text is kept, later placeholders included. */
  lemma CmdBodyInFirst(pre: string, mid: string, post: string, ins: seq<string>, outs: seq<string>)
    requires forall j :: !MatchAt(pre, InToken, j) && !MatchAt(pre, OutToken, j)
    requires forall j :: !MatchAt(mid, OutToken, j)
    requires var c := pre + InToken + mid + OutToken + post; NoNul(c) && |c| < NPOS
    ensures CmdBody(pre + InToken + mid + OutToken + post, ins, outs)
      == Done("\n    cmd = " + pre + Joined(ins) + mid + Joined(outs) + post + "\n")
  {
    var c := pre + InToken + mid + OutToken + post;
    var i, o := |pre|, |pre| + 5 + |mid|;
    TokensInOrder(pre, InToken, mid, OutToken, post);
    assert c[..i] == pre && c[i + 5..o] == mid && c[o + 6..] == post;
    assert Substituted(c, i, o, ins, outs)
      == "\n    cmd = " + pre + Joined(ins) + (mid + Joined(outs) + post) + "\n";
    assert CmdBody(c, ins, outs) == Done(Substituted(c, i, o, ins, outs));
    Assoc3("\n    cmd = " + pre + Joined(ins), mid + Joined(outs), post);
    Assoc3("\n    cmd = " + pre + Joined(ins), mid, Joined(outs));
  }

  /** Where the two placeholders are found when one follows the other,
      neither occurs before the first and the second does not occur in
      between. */
  lemma TokensInOrder(pre: string, first: string, mid: string, second: string, post: string)
    requires (first == InToken && second == OutToken) || (first == OutToken && second == InToken)
    requires forall j :: !MatchAt(pre, InToken, j) && !MatchAt(pre, OutToken, j)
    requires forall j :: !MatchAt(mid, second, j)
    requires |pre + first + mid + second + post| < NPOS
    ensures var c := pre + first + mid + second + post;
      IndexOf(c, first) == |pre| && IndexOf(c, second) == |pre| + |first| + |mid|
  {
    var c := pre + first + mid + second + post;
    var i, o := |pre|, |pre| + |first| + |mid|;
    assert InToken == ['$', '{', 'i', 'n', '}'] && OutToken == ['$', '{', 'o', 'u', 't', '}'];
    assert c[..i] == pre && c[i..i + |first|] == first;
    assert c[i + |first|..o] == mid && c[o..o + |second|] == second;
    assert c[i] == first[0] && c[o] == second[0];
    NoTokenIn(c, pre, 0, first);
    FirstTokenAt(c, first, i);
    NoTokenIn(c, pre, 0, second);
    NoTokenIn(c, mid, i + |first|, second);
    OtherTokenNotIn(c, first, second, i);
    FirstTokenAt(c, second, o);
  }

  /** Neither placeholder starts inside an occurrence of the other. */
  lemma OtherTokenNotIn(c: string, first: string, second: string, i: nat)
    requires (first == InToken && second == OutToken) || (first == OutToken && second == InToken)
    requires i + |first| <= |c| && c[i..i + |first|] == first
    ensures forall j :: i <= j < i + |first| ==> !MatchAt(c, second, j)
  {
    assert InToken == ['$', '{', 'i', 'n', '}'] && OutToken == ['$', '{', 'o', 'u', 't', '}'];
    forall j | i <= j < i + |first| ensures !MatchAt(c, second, j) {
      assert c[j] == first[j - i];
      if j == i {
        assert c[i + 2] == first[2];
        Mismatch(c, second, j, 2);
      } else {
        Mismatch(c, second, j, 0);
      }
    }
  }

  /** `${in}` alone: replaced by the input list, the rest kept. */
  lemma CmdBodyInOnly(pre: string, post: string, ins: seq<string>, outs: seq<string>)
    requires forall j :: !MatchAt(pre, InToken, j)
    requires var c := pre + InToken + post; NoNul(c) && |c| < NPOS && forall j :: !MatchAt(c, OutToken, j)
    ensures CmdBody(pre + InToken + post, ins, outs) == Done("\n    cmd = " + pre + Joined(ins) + post + "\n")
  {
    var c := pre + InToken + post;
    var i := |pre|;
    assert c[..i] == pre && c[i..i + 5] == InToken && c[i + 5..] == post;
    assert InToken == ['$', '{', 'i', 'n', '}'] && c[i] == '$';
    NoTokenIn(c, pre, 0, InToken);
    FirstTokenAt(c, InToken, i);
    IndexOfSpec(c, OutToken);
    assert CmdBody(c, ins, outs) == Done(Substituted(c, i, NPOS, ins, outs));
  }

  /** `${out}` before `${in}`: as with `${in}` first, but one extra space
      is written before the text between the two placeholders. */
  lemma CmdBodyOutFirst(pre: string, mid: string, post: string, ins: seq<string>, outs: seq<string>)
    requires forall j :: !MatchAt(pre, InToken, j) && !MatchAt(pre, OutToken, j)
    requires forall j :: !MatchAt(mid, InToken, j)
    requires var c := pre + OutToken + mid + InToken + post; NoNul(c) && |c| < NPOS
    ensures CmdBody(pre + OutToken + mid + InToken + post, ins, outs)
      == Done("\n    cmd = " + pre + Joined(outs) + " " + mid + Joined(ins) + post + "\n")
  {
    var c := pre + OutToken + mid + InToken + post;
    var o, i := |pre|, |pre| + 6 + |mid|;
    TokensInOrder(pre, OutToken, mid, InToken, post);
    assert c[..o] == pre && c[o + 6..i] == mid && c[i + 5..] == post;
    assert CmdBody(c, ins, outs) == Done(Substituted(c, i, o, ins, outs));
    assert Substituted(c, i, o, ins, outs)
      == "\n    cmd = " + pre + Joined(outs) + (" " + mid + Joined(ins) + post) + "\n";
    Assoc3("\n    cmd = " + pre + Joined(outs), " " + mid + Joined(ins), post);
    Assoc3("\n    cmd = " + pre + Joined(outs), " " + mid, Joined(ins));
    Assoc3("\n    cmd = " + pre + Joined(outs), " ", mid);
  }

  /** `${out}` alone: the text resumes five characters after the placeholder
      start, so the placeholder's closing brace is written after the outputs. */
  lemma CmdBodyOutOnly(pre: string, post: string, ins: seq<string>, outs: seq<string>)
    requires forall j :: !MatchAt(pre, OutToken, j)
    requires var c := pre + OutToken + post; NoNul(c) && |c| < NPOS && forall j :: !MatchAt(c, InToken, j)
    ensures CmdBody(pre + OutToken + post, ins, outs) == Done("\n    cmd = " + pre + Joined(outs) + "}" + post + "\n")
  {
    var c := pre + OutToken + post;
    var o := |pre|;
    assert c[..o] == pre && c[o..o + 6] == OutToken && c[o + 5..] == "}" + post;
    assert OutToken == ['$', '{', 'o', 'u', 't', '}'] && c[o] == '$';
    NoTokenIn(c, pre, 0, OutToken);
    FirstTokenAt(c, OutToken, o);
    IndexOfSpec(c, InToken);
    assert CmdBody(c, ins, outs) == Done(Substituted(c, NPOS, o, ins, outs));
    Assoc3("\n    cmd = " + pre + Joined(outs), "}", post);
  }

  /** Every step starts with `build ../<its first output>`, and a step after
      the first is ordered after the previous step's first output, followed
      by the chain's order-only dependency when there is one. */
  lemma StepOrdering(cmds: seq<CustomCommand>, i: nat, chain: Option<string>)
    requires i < |cmds| && CmdsWellFormed(cmds) && StepText(cmds, i, chain).Done?
    ensures StepReadsExist(cmds, i)
    ensures var t, h := StepText(cmds, i, chain).value, "build ../" + cmds[i].outputs[0];
      |h| <= |t| && t[..|h|] == h
    ensures i > 0 ==> MatchAt(StepText(cmds, i, chain).value, " | ../" + cmds[i - 1].outputs[0] + ChainSuffix(chain),
                               |StepHead(cmds, i)|)
  {
    assert StepReadsExist(cmds, i);
    var h, rest := "build ../" + cmds[i].outputs[0], HeadRest(cmds[i]);
    var prev, ch, tail := PreviousSuffix(cmds, i), ChainSuffix(chain), StepTail(cmds, i).value;
    assert StepText(cmds, i, chain).value == h + rest + prev + ch + tail;
    HeadAndOrder(h, rest, prev, ch, tail);
  }

  lemma HeadAndOrder(a: string, b: string, c: string, d: string, e: string)
    ensures var t := a + b + c + d + e; |a| <= |t| && t[..|a|] == a && MatchAt(t, c + d, |a + b|)
  {
    var t := a + b + c + d + e;
    assert t == a + b + (c + d) + e;
    assert t[|a + b|..|a + b| + |c + d|] == c + d;
  }

  /** Chaining only inserts ` || <chain>` right after the order-only part:
      it neither makes a step fault nor changes any other text. */
  lemma ChainInsertion(cmds: seq<CustomCommand>, i: nat, ch: string)
    requires i < |cmds| && CmdsWellFormed(cmds)
    ensures StepText(cmds, i, None).Done? <==> StepText(cmds, i, Some(ch)).Done?
    ensures StepText(cmds, i, None).Done? ==>
      var plain, chained := StepText(cmds, i, None).value, StepText(cmds, i, Some(ch)).value;
      var k := |StepHead(cmds, i)| + |PreviousSuffix(cmds, i)|;
      k <= |plain| && chained == plain[..k] + " || " + ch + plain[k..]
  {
    if StepReadsExist(cmds, i) && StepTail(cmds, i).Done? {
      var head := StepHead(cmds, i) + PreviousSuffix(cmds, i);
      var tail := StepTail(cmds, i).value;
      assert head + "" == head;
      assert StepText(cmds, i, None).value == head + tail;
      assert StepText(cmds, i, Some(ch)).value == head + " || " + ch + tail;
      SliceParts(head, "", tail);
    }
  }

  /** A copy step reads only the first input and the first output: any
      further files listed for it leave its statement unchanged. */
  lemma CopyUsesFirstFilesOnly(cmds: seq<CustomCommand>, i: nat, chain: Option<string>, ins: seq<string>, outs: seq<string>)
    requires i < |cmds| && CmdsWellFormed(cmds) && cmds[i].cmd.None?
    requires |cmds[i].inputs| > 0 && |cmds[i].outputs| > 0
    requires |ins| > 0 && |outs| > 0 && ins[0] == cmds[i].inputs[0] && outs[0] == cmds[i].outputs[0]
    ensures CmdsWellFormed(cmds[i := CustomCommand(ins, outs, None)])
    ensures StepText(cmds[i := CustomCommand(ins, outs, None)], i, chain) == StepText(cmds, i, chain)
  {
    var cmds' := cmds[i := CustomCommand(ins, outs, None)];
    if i > 0 {
      assert cmds'[i - 1] == cmds[i - 1];
    }
  }
}
