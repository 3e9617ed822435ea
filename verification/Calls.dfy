/**
 The calling discipline over whole runs. A shadow stack records, at each call, where it must return
 and what it must restore; the machine's `lr`, `fp` and stack memory are shown to keep that promise
 through any nesting of calls, framed or not.
 */
module ShadowStack {
  import opened Wrappers
  import opened Words
  import opened Memory
  import opened Ops
  import opened Machine
  import opened SavedFrames

  /**
   Just called; inside its frame, with the saved registers; or with the frame popped. Outside the frame
   `kept` are the registers that still hold what they held at the call.
   */
  datatype Phase =
    | Entered(kept: set<Reg>)
    | Framed(save: bool, amt: u16, regs: RegSet)
    | Left(kept: set<Reg>)

  /** One activation: the return address, and `sp`, `fp` and the x-registers as the call left them. */
  datatype Act = Act(ret: u64, sp: u64, fp: u64, x: Regs, phase: Phase)

  /** The activations, innermost first. */
  datatype Acts = NoActs | Cons(top: Act, rest: Acts)

  function Depth(st: Acts): nat { if st.NoActs? then 0 else 1 + Depth(st.rest) }

  /** The lowest address of a frame that the body must leave alone. */
  function LowEnd(a: Act): int
    requires a.phase.Framed?
  {
    a.sp - 16 - 8 * |a.phase.regs|
  }

  /** Memory holds the frame of `a`: the caller's `fp`, the return address, and the saved registers. */
  ghost predicate FrameHolds(h: Host, m: Mem, a: Act)
    requires a.phase.Framed?
  {
    && NativeLoad(h, m, a.sp - 16) == a.fp
    && NativeLoad(h, m, a.sp - 8) == a.ret
    && SlotsHold(h, m, a.sp - 16, a.phase.regs, a.x)
  }

  /** The stack lies above any single decrement, so decrements cannot wrap. */
  predicate Roomy(env: Env) { 0x1_0010 <= env.base }

  /** Registers 16 and up, without `sp`. */
  const UPPER: set<Reg> := set r: Reg | 16 <= r < 32 && r != SP

  predicate Upper(regs: seq<Reg>) { forall r :: r in regs ==> r in UPPER }

  ghost predicate ActOk(env: Env, m: Mem, a: Act)
  {
    && env.base <= a.sp
    && (a.phase.Framed? ==>
          && env.base <= a.sp - 16
          && Upper(a.phase.regs)
          && (!a.phase.save ==> a.phase.regs == [])
          && FrameHolds(env.host, m, a))
  }

  /** A caller is framed, and its callee starts below that frame with `fp` pointing to it. */
  predicate Below(a: Act, caller: Act)
  {
    caller.phase.Framed? && a.sp <= LowEnd(caller) && a.fp == caller.sp - 16
  }

  ghost predicate ActsOk(env: Env, m: Mem, st: Acts)
  {
    st.Cons? ==> ActOk(env, m, st.top) && (st.rest.Cons? ==> Below(st.top, st.rest.top)) && ActsOk(env, m, st.rest)
  }

  /** What the machine's registers hold in each phase of the innermost activation. */
  ghost predicate InnermostOk(s: State, a: Act)
  {
    match a.phase
    case Framed(_, _, _) => s.fp == a.sp - 16
    case Entered(kept) => s.Sp() == a.sp && s.fp == a.fp && s.lr == a.ret && Keeps(s.x, a, kept)
    case Left(kept) => s.Sp() == a.sp && s.fp == a.fp && s.lr == a.ret && Keeps(s.x, a, kept)
  }

  predicate Keeps(x: Regs, a: Act, kept: set<Reg>) { kept <= UPPER && forall r :: r in kept ==> x[r] == a.x[r] }

  ghost predicate Inv(env: Env, s: State, st: Acts)
  {
    ActsOk(env, s.mem, st) && (st.Cons? ==> InnermostOk(s, st.top))
  }

  // ----- Disciplined steps -----

  predicate IsCall(op: Op) { op.CtlOp? && (op.ctl.Call? || op.ctl.CallIndirect?) }
  predicate IsPrologue(op: Op) { op.FrameOp? && (op.frame.PushFrame? || op.frame.PushFrameSave?) }
  predicate IsEpilogue(op: Op) { op.FrameOp? && (op.frame.PopFrame? || op.frame.PopFrameRestore?) }
  predicate IsRet(op: Op) { op.CtlOp? && op.ctl.Ret? }
  predicate IsPlain(op: Op) { !IsCall(op) && !IsPrologue(op) && !IsEpilogue(op) && !IsRet(op) }

  /** The bytes of every live frame are the same in both memories. */
  ghost predicate FramesUntouched(m: Mem, m': Mem, st: Acts)
  {
    st.Cons? ==>
      && (st.top.phase.Framed? ==> Agree(m, m', LowEnd(st.top), st.top.sp))
      && FramesUntouched(m, m', st.rest)
  }

  /** The frame an epilogue expects: the one its prologue made, with `sp` back for the restoring form. */
  predicate MatchingEpilogue(s: State, f: Frame, a: Act)
    requires f.PopFrame? || f.PopFrameRestore?
  {
    && a.phase.Framed?
    && a.phase.save == f.PopFrameRestore?
    && (f.PopFrameRestore? ==> f.amt == a.phase.amt && f.regs == a.phase.regs && s.Sp() == s.fp - f.amt)
  }

  predicate InFrame(st: Acts) { st.Cons? && st.top.phase.Framed? }
  predicate OutOfFrame(st: Acts) { st.Cons? && !st.top.phase.Framed? }

  /** What the calling convention asks of the step that `op` makes from `s` to `s'`. */
  ghost predicate Allowed(env: Env, s: State, op: Op, s': State, st: Acts)
  {
    if IsCall(op) then env.base <= s.Sp() && (st.Cons? ==> InFrame(st) && s.Sp() <= LowEnd(st.top))
    else if IsPrologue(op) then
      && st.Cons? && st.top.phase.Entered?
      && (op.frame.PushFrameSave? ==> forall r :: r in op.frame.regs ==> r in st.top.phase.kept)
    else if IsEpilogue(op) then st.Cons? && MatchingEpilogue(s, op.frame, st.top)
    else if IsRet(op) then OutOfFrame(st)
    else FramesUntouched(s.mem, s'.mem, st) && (OutOfFrame(st) ==> s'.Sp() == s.Sp())
  }

  function WithPhase(st: Acts, phase: Phase): Acts
    requires st.Cons?
  {
    Cons(st.top.(phase := phase), st.rest)
  }

  /** Outside a frame, the registers that a step changes are no longer kept. */
  function Narrowed(phase: Phase, x: Regs, x': Regs): Phase
  {
    match phase
    case Entered(kept) => Entered(set r | r in kept && x'[r] == x[r])
    case Left(kept) => Left(set r | r in kept && x'[r] == x[r])
    case Framed(_, _, _) => phase
  }

  /** The shadow stack after that step. `s` has its `pc` past the instruction. */
  function Shadow(s: State, op: Op, s': State, st: Acts): Acts
  {
    if IsCall(op) then Cons(Act(s.pc, s'.Sp(), s'.fp, s'.x, Entered(UPPER)), st)
    else if st.NoActs? then st
    else if IsPrologue(op) then
      WithPhase(st, if op.frame.PushFrame? then Framed(false, 0, []) else Framed(true, op.frame.amt, op.frame.regs))
    else if IsEpilogue(op) && InFrame(st) then WithPhase(st, Left(set r | r in st.top.phase.regs))
    else if IsRet(op) then st.rest
    else if IsPlain(op) then WithPhase(st, Narrowed(st.top.phase, s.x, s'.x))
    else st
  }

  // ----- Each kind of step keeps the invariant -----

  lemma {:induction false} CallArgsKeepUpper(x: Regs, vals: seq<u64>)
    requires |vals| <= 4
    ensures WriteArgs(x, vals)[4..] == x[4..]
  {
    if vals != [] { CallArgsKeepUpper(x, vals[..|vals| - 1]); }
  }

  lemma CallEffect(env: Env, s: State, c: Ctl, s': State)
    requires c.Call? || c.CallIndirect?
    requires ExecCtl(env, s, c) == Continue(s')
    ensures s'.mem == s.mem && s'.fp == s.fp && s'.lr == s.pc && s'.Sp() == s.Sp() && s'.x[16..] == s.x[16..]
  {
    if c.Call? {
      CallArgsKeepUpper(s.x, ReadArgs(s.x, c.args));
      assert s'.x[16..] == s'.x[4..][12..] && s.x[16..] == s.x[4..][12..];
      assert s'.x[SP] == s'.x[4..][26] && s.x[SP] == s.x[4..][26];
    }
  }

  lemma CallKeeps(env: Env, s: State, c: Ctl, s': State, st: Acts)
    requires c.Call? || c.CallIndirect?
    requires Inv(env, s, st) && ExecCtl(env, s, c) == Continue(s')
    requires Allowed(env, s, CtlOp(c), s', st)
    ensures Inv(env, s', Shadow(s, CtlOp(c), s', st))
  {
    CallEffect(env, s, c, s');
  }

  lemma RetKeeps(env: Env, s: State, s': State, st: Acts)
    requires Inv(env, s, st) && ExecCtl(env, s, Ret) == Continue(s')
    requires Allowed(env, s, CtlOp(Ret), s', st)
    ensures Inv(env, s', Shadow(s, CtlOp(Ret), s', st))
    ensures s' == s.(pc := st.top.ret)
  {
  }

  /** Bytes outside the live frames do not matter to them. */
  lemma {:induction false} ActsAgree(env: Env, m: Mem, m': Mem, st: Acts)
    requires Lawful(env.host)
    requires ActsOk(env, m, st) && FramesUntouched(m, m', st)
    ensures ActsOk(env, m', st)
  {
    if st.Cons? {
      var a := st.top;
      if a.phase.Framed? {
        NativeAgree(env.host, m, m', a.sp - 16);
        NativeAgree(env.host, m, m', a.sp - 8);
        SlotsAgree(env.host, m, m', a.sp - 16, a.phase.regs, a.x);
      }
      ActsAgree(env, m, m', st.rest);
    }
  }

  /** A change below the innermost frame touches no frame. */
  lemma {:induction false} FramesAbove(env: Env, m: Mem, m': Mem, st: Acts, lo: int, hi: int)
    requires ActsOk(env, m, st) && ChangedOnly(m, m', lo, hi)
    requires InFrame(st) ==> hi <= LowEnd(st.top)
    requires OutOfFrame(st) ==> hi <= st.top.sp
    ensures FramesUntouched(m, m', st)
  {
    if st.Cons? { FramesAbove(env, m, m', st.rest, lo, hi); }
  }

  lemma {:induction false} SlotsSameValues(h: Host, m: Mem, top: int, regs: seq<Reg>, x: Regs, y: Regs)
    requires SlotsHold(h, m, top, regs, x)
    requires forall r :: r in regs ==> x[r] == y[r]
    ensures SlotsHold(h, m, top, regs, y)
    decreases regs
  {
    if regs != [] { SlotsSameValues(h, m, top - 8, regs[1..], x, y); }
  }

  lemma SameUpper(x: Regs, y: Regs)
    requires x[16..] == y[16..]
    ensures forall r: Reg :: 16 <= r ==> x[r] == y[r]
  {
    forall r: Reg | 16 <= r
      ensures x[r] == y[r]
    {
      assert x[r] == x[16..][r - 16] && y[r] == y[16..][r - 16];
    }
  }

  /** Pushing a frame in the innermost activation. */
  lemma FramePushedKeeps(env: Env, s: State, st: Acts, save: bool, amt: u16, regs: RegSet)
    requires Lawful(env.host) && Roomy(env)
    requires Inv(env, s, st) && st.Cons? && st.top.phase.Entered?
    requires env.base <= s.Sp() - 16 - amt
    requires (forall r :: r in regs ==> r in st.top.phase.kept) && (!save ==> regs == [])
    ensures Inv(env, FramePushed(env.host, s, amt, regs), WithPhase(st, Framed(save, amt, regs)))
  {
    var s1 := FramePushed(env.host, s, amt, regs);
    FramePushedHolds(env.host, s, amt, regs);
    FramesAbove(env, s.mem, s1.mem, st, s.Sp() - 16 - 8 * |regs|, s.Sp());
    ActsAgree(env, s.mem, s1.mem, st);
    SlotsSameValues(env.host, s1.mem, st.top.sp - 16, regs, s1.x, st.top.x);
  }

  lemma PrologueKeeps(env: Env, s: State, f: Frame, s': State, st: Acts)
    requires f.PushFrame? || f.PushFrameSave?
    requires Lawful(env.host) && Roomy(env)
    requires Inv(env, s, st) && ExecFrame(env, s, f) == Continue(s')
    requires Allowed(env, s, FrameOp(f), s', st)
    ensures Inv(env, s', Shadow(s, FrameOp(f), s', st))
  {
    var sp := s.Sp();
    assert env.base <= sp;
    if f.PushFrame? {
      PushFrameEffect(env, s);
      U64Id(sp - 16);
      assert s' == FramePushed(env.host, s, 0, []);
      FramePushedKeeps(env, s, st, false, 0, []);
    } else {
      PushFrameSaveShape(env, s, f.amt, f.regs);
      U64Id(sp - 16 - f.amt);
      FramePushedKeeps(env, s, st, true, f.amt, f.regs);
    }
  }

  lemma EpilogueKeeps(env: Env, s: State, f: Frame, s': State, st: Acts)
    requires f.PopFrame? || f.PopFrameRestore?
    requires Roomy(env)
    requires Inv(env, s, st) && ExecFrame(env, s, f) == Continue(s')
    requires Allowed(env, s, FrameOp(f), s', st)
    ensures Inv(env, s', Shadow(s, FrameOp(f), s', st))
  {
    var a := st.top;
    if f.PopFrame? {
      PopFrameEffect(env.host, s);
    } else {
      var x := RestoreRegs(env.host, s.x, s.mem, f.amt, f.regs);
      RestoreRegsValues(env.host, s.x, s.mem, f.amt, f.regs, a.x);
      PopFrameEffect(env.host, s.(x := x));
      assert s'.x == x[SP := a.sp];
    }
  }

  /** Only calls, returns and frame instructions write `fp` and `lr`. */
  lemma PlainFixesLinks(env: Env, s: State, op: Op, s': State)
    requires IsPlain(op) && Exec(env, s, op) == Continue(s')
    ensures s'.fp == s.fp && s'.lr == s.lr
  {
  }

  lemma {:induction false} PlainKeeps(env: Env, s: State, s': State, st: Acts)
    requires Lawful(env.host)
    requires Inv(env, s, st) && s'.fp == s.fp && s'.lr == s.lr
    requires FramesUntouched(s.mem, s'.mem, st)
    requires OutOfFrame(st) ==> s'.Sp() == s.Sp()
    ensures Inv(env, s', if st.NoActs? then st else WithPhase(st, Narrowed(st.top.phase, s.x, s'.x)))
  {
    ActsAgree(env, s.mem, s'.mem, st);
  }

  // ----- Runs -----

  /** The step from `s` to `s'` obeys the convention, and moves the shadow stack from `st` to `st'`. */
  ghost predicate Disciplined(env: Env, s: State, st: Acts, s': State, st': Acts)
  {
    && Decodes(env, s.pc)
    && Step(env, s) == Continue(s')
    && Allowed(env, s.(pc := NextPc(env, s.pc)), OpAt(env, s.pc), s', st)
    && st' == Shadow(s.(pc := NextPc(env, s.pc)), OpAt(env, s.pc), s', st)
  }

  lemma StepKeeps(env: Env, s: State, st: Acts, s': State, st': Acts)
    requires Lawful(env.host) && Roomy(env)
    requires Inv(env, s, st) && Disciplined(env, s, st, s', st')
    ensures Inv(env, s', st')
  {
    var op := OpAt(env, s.pc);
    var t := s.(pc := NextPc(env, s.pc));
    if IsCall(op) {
      CallKeeps(env, t, op.ctl, s', st);
    } else if IsPrologue(op) {
      PrologueKeeps(env, t, op.frame, s', st);
    } else if IsEpilogue(op) {
      EpilogueKeeps(env, t, op.frame, s', st);
    } else if IsRet(op) {
      RetKeeps(env, t, s', st);
    } else {
      PlainFixesLinks(env, t, op, s');
      PlainKeeps(env, t, s', st);
    }
  }

  /** A run with its shadow stacks: `states[i]` is reached with `shadows[i]`. */
  ghost predicate DisciplinedRun(env: Env, states: seq<State>, shadows: seq<Acts>)
  {
    |states| == |shadows| > 0 && forall i :: 0 <= i < |states| - 1 ==> StepAt(env, states, shadows, i)
  }

  ghost predicate StepAt(env: Env, states: seq<State>, shadows: seq<Acts>, i: nat)
    requires i < |states| - 1 && |states| == |shadows|
  {
    Disciplined(env, states[i], shadows[i], states[i + 1], shadows[i + 1])
  }

  /** The invariant holds at every state of every disciplined run. */
  lemma {:induction false} RunKeeps(env: Env, states: seq<State>, shadows: seq<Acts>, i: nat)
    requires Lawful(env.host) && Roomy(env)
    requires DisciplinedRun(env, states, shadows) && i < |states|
    requires Inv(env, states[0], shadows[0])
    ensures Inv(env, states[i], shadows[i])
  {
    if i > 0 {
      RunKeeps(env, states, shadows, i - 1);
      assert StepAt(env, states, shadows, i - 1);
      StepKeeps(env, states[i - 1], shadows[i - 1], states[i], shadows[i]);
    }
  }

  // ----- Returns -----

  /** The part of a shadow stack at depth `d` and outward. */
  function Outer(st: Acts, d: nat): Acts { if Depth(st) <= d then st else Outer(st.rest, d) }

  /** A step that stays deeper than `d` changes at depth `d + 1` at most the phase, and nothing outside it. */
  lemma ShadowKeepsOuter(s: State, op: Op, s': State, st: Acts, d: nat)
    requires Depth(st) > d && Depth(Shadow(s, op, s', st)) > d
    ensures Outer(st, d + 1).Cons? && Outer(Shadow(s, op, s', st), d + 1).Cons?
    ensures var o := Outer(st, d + 1); var o' := Outer(Shadow(s, op, s', st), d + 1);
            o'.rest == o.rest && o'.top == o.top.(phase := o'.top.phase)
  {
    OuterCons(st, d);
    OuterCons(Shadow(s, op, s', st), d);
  }

  lemma {:induction false} OuterCons(st: Acts, d: nat)
    requires Depth(st) > d
    ensures Outer(st, d + 1).Cons?
  {
    if Depth(st) > d + 1 { OuterCons(st.rest, d); }
  }

  predicate CallsAt(env: Env, pc: u64) { Decodes(env, pc) && IsCall(OpAt(env, pc)) }

  /** The activation that the call at `s` pushes on its way to `s1`. */
  function CallRecord(env: Env, s: State, s1: State, phase: Phase): Act
    requires Decodes(env, s.pc)
  {
    Act(NextPc(env, s.pc), s1.Sp(), s1.fp, s1.x, phase)
  }

  /** While the run stays deeper than the call at `i`, the activation it pushed stays on record. */
  lemma {:induction false} CallOnRecord(env: Env, states: seq<State>, shadows: seq<Acts>, i: nat, k: nat)
    requires DisciplinedRun(env, states, shadows) && i < k < |states|
    requires CallsAt(env, states[i].pc)
    requires forall j :: i < j <= k ==> Depth(shadows[j]) > Depth(shadows[i])
    ensures var o := Outer(shadows[k], Depth(shadows[i]) + 1);
            && o.Cons? && o.rest == shadows[i]
            && o.top == CallRecord(env, states[i], states[i + 1], o.top.phase)
    decreases k
  {
    assert StepAt(env, states, shadows, k - 1);
    if k > i + 1 {
      CallOnRecord(env, states, shadows, i, k - 1);
      var t := states[k - 1].(pc := NextPc(env, states[k - 1].pc));
      ShadowKeepsOuter(t, OpAt(env, states[k - 1].pc), states[k], shadows[k - 1], Depth(shadows[i]));
    }
  }

  /** The registers that an activation hands back: those its frame saved, or without one those it never changed. */
  predicate HandsBack(phase: Phase, r: Reg)
  {
    match phase
    case Entered(kept) => r in kept
    case Left(kept) => r in kept
    case Framed(_, _, _) => false
  }

  /** A return leaves `pc`, `sp`, `fp` and the handed-back registers as the activation recorded them. */
  lemma {:induction false} ReturnRestores(env: Env, s: State, st: Acts, s': State, st': Acts)
    requires Inv(env, s, st) && Disciplined(env, s, st, s', st')
    requires Depth(st') < Depth(st)
    ensures st' == st.rest
    ensures s'.pc == st.top.ret && s'.Sp() == st.top.sp && s'.fp == st.top.fp
    ensures forall r: Reg :: HandsBack(st.top.phase, r) ==> 16 <= r && s'.x[r] == st.top.x[r]
  {
    var t := s.(pc := NextPc(env, s.pc));
    assert IsRet(OpAt(env, s.pc));
    RetKeeps(env, t, s', st);
  }

  /**
   Every call returns: when a disciplined run first comes back to the depth of the call at `i`, it is
   at the instruction after that call, with `sp`, `fp` and the handed-back registers as they were.
   */
  lemma CallReturns(env: Env, states: seq<State>, shadows: seq<Acts>, i: nat, j: nat)
    requires Lawful(env.host) && Roomy(env)
    requires DisciplinedRun(env, states, shadows) && Inv(env, states[0], shadows[0])
    requires i + 1 < j < |states| && CallsAt(env, states[i].pc)
    requires forall k :: i < k < j ==> Depth(shadows[k]) > Depth(shadows[i])
    requires Depth(shadows[j]) <= Depth(shadows[i])
    ensures shadows[j] == shadows[i] && shadows[j - 1].Cons?
    ensures states[j].pc == NextPc(env, states[i].pc)
    ensures states[j].Sp() == states[i].Sp() && states[j].fp == states[i].fp
    ensures forall r: Reg :: HandsBack(shadows[j - 1].top.phase, r) ==> states[j].x[r] == states[i].x[r]
  {
    CallOnRecord(env, states, shadows, i, j - 1);
    RunKeeps(env, states, shadows, j - 1);
    assert StepAt(env, states, shadows, j - 1);
    ReturnRestores(env, states[j - 1], shadows[j - 1], states[j], shadows[j]);
    assert StepAt(env, states, shadows, i);
    var t := states[i].(pc := NextPc(env, states[i].pc));
    CallEffect(env, t, OpAt(env, states[i].pc).ctl, states[i + 1]);
    SameUpper(states[i + 1].x, states[i].x);
  }

  // ----- The chain of frame pointers -----

  /** Follow saved frame pointers in memory, collecting each with the return address above it. */
  function WalkFrames(h: Host, m: Mem, fp: u64, n: nat): seq<(int, u64)>
    decreases n
  {
    if n == 0 then [] else [(fp, NativeLoad(h, m, fp + 8))] + WalkFrames(h, m, NativeLoad(h, m, fp), n - 1)
  }

  /** What the walk should find: the frames from the innermost out. */
  function FrameList(st: Acts): seq<(int, u64)>
  {
    if st.NoActs? then [] else [(st.top.sp - 16, st.top.ret)] + FrameList(st.rest)
  }

  /** The activations that have a frame at this point of the run. */
  function FramedActs(st: Acts): Acts { if OutOfFrame(st) then st.rest else st }

  predicate Increasing(l: seq<(int, u64)>) { |l| > 1 ==> l[0].0 < l[1].0 && Increasing(l[1..]) }

  lemma {:induction false} WalkIsFrameList(env: Env, m: Mem, st: Acts, fp: u64)
    requires ActsOk(env, m, st)
    requires st.Cons? ==> InFrame(st) && fp == st.top.sp - 16
    ensures WalkFrames(env.host, m, fp, Depth(st)) == FrameList(st)
    ensures Increasing(FrameList(st))
  {
    if st.Cons? {
      WalkIsFrameList(env, m, st.rest, st.top.fp);
      assert FrameList(st)[1..] == FrameList(st.rest);
    }
  }

  /**
   At every state of a disciplined run, following `fp` through memory visits exactly the live frames,
   at strictly increasing addresses, each with its return address.
   */
  lemma FramePointerChain(env: Env, states: seq<State>, shadows: seq<Acts>, i: nat)
    requires Lawful(env.host) && Roomy(env)
    requires DisciplinedRun(env, states, shadows) && Inv(env, states[0], shadows[0]) && i < |states|
    ensures var framed := FramedActs(shadows[i]);
            && WalkFrames(env.host, states[i].mem, states[i].fp, Depth(framed)) == FrameList(framed)
            && Increasing(FrameList(framed))
  {
    RunKeeps(env, states, shadows, i);
    WalkIsFrameList(env, states[i].mem, FramedActs(shadows[i]), states[i].fp);
  }
}
