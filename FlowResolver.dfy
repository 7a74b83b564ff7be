/** `visit_flow_control` (whitespace/Visitor.py:5-25): the pass that gives
    every CallSub, Jump, JumpZero and JumpNegative the index of the command
    that carries its target label.

    The first loop builds a dictionary from label to command index and raises
    DuplicateLabels when a label other than -1 appears twice; the second
    writes `target_pc` on the flow commands in place, raising KeyError at the
    first target label the dictionary lacks (the commands before it are
    already patched by then).  VisitFlowControl is that behaviour on values,
    the method ResolveFlow the in-place version over an array of commands. */
module FlowResolver {
  import opened Base
  import opened Commands

  /** The first pass over the first commands of a program: each label mapped
      to the index of its last occurrence, or DuplicateLabels(label, index,
      earlier index) at the first repeated label other than -1. */
  function LabelTable(p: seq<Command>): Result<map<int, nat>>
  {
    if p == [] then Ok(map[])
    else
      match LabelTable(p[..|p| - 1])
      case Err(e) => Err(e)
      case Ok(m) =>
        var l := p[|p| - 1].labelId;
        if l != NoLabel && l in m then Err(DuplicateLabels(l, |p| - 1, m[l]))
        else Ok(m[l := |p| - 1])
  }

  /** Two commands carry the same label, other than -1. */
  predicate HasDuplicate(p: seq<Command>)
  {
    exists i, j :: 0 <= i < j < |p| && p[j].labelId != NoLabel && p[i].labelId == p[j].labelId
  }

  /** Some command carries label l. */
  predicate Defines(p: seq<Command>, l: int)
  {
    exists i :: 0 <= i < |p| && p[i].labelId == l
  }

  /** The table maps exactly the labels of the program, each to the last
      command that carries it. */
  ghost predicate IsLabelTable(p: seq<Command>, m: map<int, nat>)
  {
    && (forall l :: l in m <==> Defines(p, l))
    && (forall l :: l in m ==> 0 <= m[l] < |p| && p[m[l]].labelId == l)
    && (forall l, j :: l in m && m[l] < j < |p| ==> p[j].labelId != l)
  }

  /** The first pass fails exactly when a label other than -1 repeats;
      otherwise it yields the table of the program's labels, -1 mapped to the
      last unlabelled command. */
  lemma LabelTableCorrect(p: seq<Command>)
    ensures LabelTable(p).Ok? <==> !HasDuplicate(p)
    ensures LabelTable(p).Ok? ==> IsLabelTable(p, LabelTable(p).value)
    ensures LabelTable(p).Err? ==> LabelTable(p).error.DuplicateLabels?
  {
    TableWhenOk(p);
    FailsOnDuplicate(p);
  }

  lemma {:induction false} TableWhenOk(p: seq<Command>)
    ensures LabelTable(p).Ok? ==> IsLabelTable(p, LabelTable(p).value)
  {
    if p != [] && LabelTable(p).Ok? {
      var q := p[..|p| - 1];
      var last := |p| - 1;
      TableWhenOk(q);
      var m := LabelTable(q).value;
      var l := p[last].labelId;
      var m' := m[l := last];
      assert LabelTable(p).value == m';
      forall k | Defines(p, k) ensures k in m' {
        var i :| 0 <= i < |p| && p[i].labelId == k;
        if i < last {
          assert q[i].labelId == k;
        }
      }
      forall k | k in m' ensures Defines(p, k) && 0 <= m'[k] < |p| && p[m'[k]].labelId == k {
        if k != l {
          assert q[m[k]] == p[m[k]];
        }
      }
      forall k, j | k in m' && m'[k] < j < |p| ensures p[j].labelId != k {
        if k != l && j < last {
          assert q[j] == p[j];
        }
      }
    }
  }

  lemma {:induction false} FailsOnDuplicate(p: seq<Command>)
    ensures LabelTable(p).Ok? <==> !HasDuplicate(p)
    ensures LabelTable(p).Err? ==> LabelTable(p).error.DuplicateLabels?
  {
    if p != [] {
      var q := p[..|p| - 1];
      var last := |p| - 1;
      FailsOnDuplicate(q);
      TableWhenOk(q);
      match LabelTable(q)
      case Err(_) =>
        var i, j :| 0 <= i < j < |q| && q[j].labelId != NoLabel && q[i].labelId == q[j].labelId;
        assert p[i] == q[i] && p[j] == q[j];
      case Ok(m) =>
        var l := p[last].labelId;
        if l != NoLabel && l in m {
          assert p[m[l]].labelId == l && m[l] < last;
        }
    }
  }

  /** A flow command whose target label the table lacks. */
  predicate Missing(c: Command, m: map<int, nat>)
  {
    c.op.IsFlow() && c.targetLabel !in m
  }

  /** The second loop's work on one command: a flow command gets the index of
      its target label; any other command is left alone. */
  function Patch(c: Command, m: map<int, nat>): Command
  {
    if c.op.IsFlow() && c.targetLabel in m then c.(targetPc := m[c.targetLabel]) else c
  }

  /** The first k commands patched, the rest as they were. */
  function PatchedUpTo(p: seq<Command>, m: map<int, nat>, k: nat): (r: seq<Command>)
    requires k <= |p|
    ensures |r| == |p|
    ensures forall i :: 0 <= i < k ==> r[i] == Patch(p[i], m)
    ensures forall i :: k <= i < |p| ==> r[i] == p[i]
  {
    seq(|p|, i requires 0 <= i < |p| => if i < k then Patch(p[i], m) else p[i])
  }

  /** The index of the first command whose target label is missing. */
  function FirstMissing(p: seq<Command>, m: map<int, nat>): (r: Option<nat>)
    ensures r.Some? ==> r.value < |p| && Missing(p[r.value], m)
    ensures r.Some? ==> forall i :: 0 <= i < r.value ==> !Missing(p[i], m)
    ensures r.None? ==> forall i :: 0 <= i < |p| ==> !Missing(p[i], m)
  {
    if p == [] then None
    else if Missing(p[0], m) then Some(0)
    else
      match FirstMissing(p[1..], m)
      case None => None
      case Some(k) => Some(k + 1)
  }

  /** `visit_flow_control(prog)`: the outcome and the program afterwards. */
  function VisitFlowControl(p: seq<Command>): (r: (Outcome, seq<Command>))
  {
    match LabelTable(p)
    case Err(e) => (Fail(e), p)
    case Ok(m) =>
      match FirstMissing(p, m)
      case None => (Pass, PatchedUpTo(p, m, |p|))
      case Some(k) => (Fail(KeyError(p[k].targetLabel)), PatchedUpTo(p, m, k))
  }

  /** Repeated labels raise DuplicateLabels before any command changes, and
      only then. */
  lemma DuplicatesDetected(p: seq<Command>)
    ensures HasDuplicate(p) <==> VisitFlowControl(p).0.Fail? && VisitFlowControl(p).0.error.DuplicateLabels?
    ensures HasDuplicate(p) ==> VisitFlowControl(p).1 == p
  {
    LabelTableCorrect(p);
  }

  /** With distinct labels, KeyError is raised exactly when some flow command
      targets a label no command carries, and it names that label. */
  lemma UndefinedTargetIsKeyError(p: seq<Command>)
    requires !HasDuplicate(p)
    ensures VisitFlowControl(p).0.Fail? <==>
              exists i :: 0 <= i < |p| && p[i].op.IsFlow() && !Defines(p, p[i].targetLabel)
    ensures VisitFlowControl(p).0.Fail? ==>
              VisitFlowControl(p).0.error.KeyError? && !Defines(p, VisitFlowControl(p).0.error.key)
  {
    LabelTableCorrect(p);
    var m := LabelTable(p).value;
    match FirstMissing(p, m)
    case None =>
    case Some(k) =>
  }

  /** After a successful pass every flow command's target PC is the index of
      a command carrying its target label (whitespace/Visitor.py:17-25). */
  lemma TargetsPointAtLabels(p: seq<Command>)
    requires VisitFlowControl(p).0 == Pass
    ensures var q := VisitFlowControl(p).1;
            forall i :: 0 <= i < |q| && q[i].op.IsFlow() ==>
              0 <= q[i].targetPc < |q| && q[q[i].targetPc].labelId == q[i].targetLabel
  {
    LabelTableCorrect(p);
  }

  /** Whatever the outcome, the pass changes nothing but the target PC of
      flow commands: the length, the order, every label, target label and
      operand, and every other command stay as they were. */
  lemma OnlyTargetPcChanges(p: seq<Command>)
    ensures var q := VisitFlowControl(p).1;
            && |q| == |p|
            && (forall i :: 0 <= i < |p| ==> q[i] == p[i].(targetPc := q[i].targetPc))
            && (forall i :: 0 <= i < |p| && !p[i].op.IsFlow() ==> q[i] == p[i])
  {
  }

  /** Running the pass on its own successful output changes nothing more. */
  lemma Idempotent(p: seq<Command>)
    requires VisitFlowControl(p).0 == Pass
    ensures VisitFlowControl(VisitFlowControl(p).1) == (Pass, VisitFlowControl(p).1)
  {
    var q := VisitFlowControl(p).1;
    var m := LabelTable(p).value;
    LabelsOnly(p, q);
    assert PatchedUpTo(q, m, |q|) == q;
  }

  /** The first pass reads only the labels. */
  lemma {:induction false} LabelsOnly(p: seq<Command>, q: seq<Command>)
    requires |p| == |q| && forall i :: 0 <= i < |p| ==> p[i].labelId == q[i].labelId
    ensures LabelTable(p) == LabelTable(q)
  {
    if p != [] {
      LabelsOnly(p[..|p| - 1], q[..|q| - 1]);
    }
  }

  /** The table entry of -1 is the last unlabelled command, so a flow command
      targeting -1 would go there rather than raise (whitespace/Visitor.py:12-15). */
  lemma UnlabelledEntry(p: seq<Command>, i: nat)
    requires LabelTable(p).Ok? && i < |p| && p[i].labelId == NoLabel
    ensures NoLabel in LabelTable(p).value
    ensures var k := LabelTable(p).value[NoLabel];
            i <= k < |p| && p[k].labelId == NoLabel
            && forall j :: k < j < |p| ==> p[j].labelId != NoLabel
  {
    LabelTableCorrect(p);
    var m := LabelTable(p).value;
    assert Defines(p, NoLabel);
  }

  /** The first loop of `visit_flow_control`: the label table of the
      program, or DuplicateLabels at the first repeated label. */
  method FirstPass(prog: array<Command>) returns (r: Result<map<int, nat>>)
    ensures r == LabelTable(prog[..])
  {
    var labels: map<int, nat> := map[];
    var idx := 0;
    while idx < prog.Length
      invariant 0 <= idx <= prog.Length
      invariant LabelTable(prog[..idx]) == Ok(labels)
    {
      var l := prog[idx].labelId;
      assert prog[..idx + 1][..idx] == prog[..idx];
      if l != NoLabel && l in labels {
        LabelTablePrefix(prog[..], idx + 1);
        return Err(DuplicateLabels(l, idx, labels[l]));
      }
      labels := labels[l := idx];
      idx := idx + 1;
    }
    assert prog[..prog.Length] == prog[..];
    r := Ok(labels);
  }

  /** The second loop of `visit_flow_control`: give each flow command the
      index of its target label, in order, up to the first flow command whose
      target label the table lacks (whose index is returned). */
  method SecondPass(prog: array<Command>, labels: map<int, nat>) returns (missing: Option<nat>)
    modifies prog
    ensures missing == FirstMissing(old(prog[..]), labels)
    ensures prog[..] == PatchedUpTo(old(prog[..]), labels, if missing.Some? then missing.value else prog.Length)
  {
    ghost var p := prog[..];
    var i := 0;
    while i < prog.Length
      invariant 0 <= i <= prog.Length
      invariant prog[..] == PatchedUpTo(p, labels, i)
      invariant forall j :: 0 <= j < i ==> !Missing(p[j], labels)
    {
      var c := prog[i];
      if c.op.IsFlow() {
        if c.targetLabel !in labels {
          FirstMissingIs(p, labels, i);
          return Some(i);
        }
        prog[i] := c.(targetPc := labels[c.targetLabel]);
      }
      i := i + 1;
    }
    missing := None;
  }

  /** `visit_flow_control(prog)` on an array of commands, in place. */
  method ResolveFlow(prog: array<Command>) returns (r: Outcome)
    modifies prog
    ensures (r, prog[..]) == VisitFlowControl(old(prog[..]))
  {
    var table := FirstPass(prog);
    if table.Err? {
      return Fail(table.error);
    }
    var missing := SecondPass(prog, table.value);
    if missing.Some? {
      r := Fail(KeyError(prog[missing.value].targetLabel));
    } else {
      r := Pass;
    }
  }

  /** A duplicate in a prefix is a duplicate of the whole program. */
  lemma {:induction false} LabelTablePrefix(p: seq<Command>, n: nat)
    requires n <= |p| && LabelTable(p[..n]).Err?
    ensures LabelTable(p) == LabelTable(p[..n])
    decreases |p| - n
  {
    if n < |p| {
      assert p[..n + 1][..n] == p[..n];
      LabelTablePrefix(p, n + 1);
    } else {
      assert p[..n] == p;
    }
  }

  /** The first flow command found with a missing target is FirstMissing. */
  lemma FirstMissingIs(p: seq<Command>, m: map<int, nat>, i: nat)
    requires i < |p| && Missing(p[i], m)
    requires forall j :: 0 <= j < i ==> !Missing(p[j], m)
    ensures FirstMissing(p, m) == Some(i)
  {
    match FirstMissing(p, m)
    case None =>
    case Some(k) =>
  }
}
