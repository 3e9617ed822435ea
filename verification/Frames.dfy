/**
 `push_frame_save` and `pop_frame_restore`: the slots of a frame, the expansion into smaller
 instructions, and the inverse.
 */
module SavedFrames {
  import opened Wrappers
  import opened Words
  import opened Memory
  import opened Ops
  import opened Machine

  /** The slots of `regs`, downward from `top`, hold the values that `orig` gives those registers. */
  ghost predicate SlotsHold(h: Host, m: Mem, top: int, regs: seq<Reg>, orig: Regs)
    decreases regs
  {
    regs == [] || (NativeLoad(h, m, top - 8) == orig[regs[0]] && SlotsHold(h, m, top - 8, regs[1..], orig))
  }

  lemma {:induction false} SlotsAgree(h: Host, m: Mem, m': Mem, top: int, regs: seq<Reg>, orig: Regs)
    requires Lawful(h)
    requires Agree(m, m', top - 8 * |regs|, top)
    ensures SlotsHold(h, m, top, regs, orig) == SlotsHold(h, m', top, regs, orig)
    decreases regs
  {
    if regs != [] {
      NativeAgree(h, m, m', top - 8);
      SlotsAgree(h, m, m', top - 8, regs[1..], orig);
    }
  }

  lemma {:induction false} SaveRegsFrame(h: Host, x: Regs, mem: Mem, off: int, regs: seq<Reg>)
    requires Lawful(h)
    requires 8 * |regs| <= x[SP] + off <= B64
    ensures ChangedOnly(mem, SaveRegs(h, x, mem, off, regs), x[SP] + off - 8 * |regs|, x[SP] + off)
    decreases regs
  {
    if regs != [] {
      U64Id(x[SP] + off - 8);
      NativeFrame(h, mem, x[SP] + off - 8, x[regs[0]]);
      SaveRegsFrame(h, x, NativeStore(h, mem, x[SP] + off - 8, x[regs[0]]), off - 8, regs[1..]);
    }
  }

  lemma {:induction false} SaveRegsSlots(h: Host, x: Regs, mem: Mem, off: int, regs: seq<Reg>)
    requires Lawful(h)
    requires 8 * |regs| <= x[SP] + off <= B64
    ensures SlotsHold(h, SaveRegs(h, x, mem, off, regs), x[SP] + off, regs, x)
    decreases regs
  {
    if regs != [] {
      var top := x[SP] + off;
      U64Id(top - 8);
      var m := NativeStore(h, mem, top - 8, x[regs[0]]);
      SaveRegsSlots(h, x, m, off - 8, regs[1..]);
      SaveRegsFrame(h, x, m, off - 8, regs[1..]);
      NativeAgree(h, m, SaveRegs(h, x, m, off - 8, regs[1..]), top - 8);
      NativeLoadStore(h, mem, top - 8, x[regs[0]]);
    }
  }

  lemma {:induction false} RestoreRegsValues(h: Host, x: Regs, mem: Mem, off: int, regs: seq<Reg>, orig: Regs)
    requires 8 * |regs| <= x[SP] + off <= B64
    requires SlotsHold(h, mem, x[SP] + off, regs, orig)
    requires SP in regs ==> orig[SP] == x[SP]
    ensures forall r: Reg :: RestoreRegs(h, x, mem, off, regs)[r] == if r in regs then orig[r] else x[r]
    decreases regs
  {
    if regs != [] {
      U64Id(x[SP] + off - 8);
      RestoreRegsValues(h, x[regs[0] := orig[regs[0]]], mem, off - 8, regs[1..], orig);
    }
  }

  // ----- The expansion -----

  /** One `xstore64le_o32` per register, at descending slots below `sp + off`. */
  function Saves(env: Env, s: State, off: int, regs: seq<Reg>): Flow
    decreases regs
  {
    if regs == [] then Continue(s)
    else
      match ExecMem(env, s, Ops.Store(8, O32(SP, off - 8), regs[0]))
      case Break(s1) => Break(s1)
      case Continue(s1) => Saves(env, s1, off - 8, regs[1..])
  }

  /** `push_frame`, then `stack_alloc32`, then the saves, stopping at the first that traps. */
  function Expansion(env: Env, s: State, amt: u16, regs: RegSet): Flow
  {
    match ExecFrame(env, s, PushFrame)
    case Break(s1) => Break(s1)
    case Continue(s1) =>
      match ExecFrame(env, s1, StackAlloc(amt))
      case Break(s2) => Break(s2)
      case Continue(s2) => Saves(env, s2, amt, regs)
  }

  lemma {:induction false} SavesIsSaveRegs(env: Env, s: State, off: int, regs: seq<Reg>)
    requires env.host == LittleEndian()
    ensures Saves(env, s, off, regs) == Continue(s.(mem := SaveRegs(env.host, s.x, s.mem, off, regs)))
    decreases regs
  {
    if regs != [] {
      var s1 := s.(mem := NativeStore(env.host, s.mem, U64(s.x[SP] + off - 8), s.x[regs[0]]));
      SavesIsSaveRegs(env, s1, off - 8, regs[1..]);
    }
  }

  /** The two words that a frame starts with: `lr` above the saved `fp`. */
  function FrameWords(h: Host, s: State): Mem
  {
    NativeStore(h, NativeStore(h, s.mem, U64(s.Sp() - 8), s.lr), U64(s.Sp() - 16), s.fp)
  }

  lemma PushFrameEffect(env: Env, s: State)
    ensures PushFrameFn(env, s).Break? <==> U64(s.Sp() - 8) < env.base || U64(s.Sp() - 16) < env.base
    ensures PushFrameFn(env, s).Continue? ==>
              PushFrameFn(env, s).s ==
              s.(x := s.x[SP := U64(s.Sp() - 16)], fp := U64(s.Sp() - 16), mem := FrameWords(env.host, s))
  {
    U64Shift(s.Sp() - 8, 8);
  }

  /** The state that both forms reach. */
  function FramePushed(h: Host, s: State, amt: u16, regs: RegSet): State
  {
    var x1: Regs := s.x[SP := U64(s.Sp() - 16 - amt)];
    s.(x := x1, fp := U64(s.Sp() - 16), mem := SaveRegs(h, x1, FrameWords(h, s), amt, regs))
  }

  lemma ExpansionEffect(env: Env, s: State, amt: u16, regs: RegSet)
    requires env.host == LittleEndian()
    ensures var sp := s.Sp(); var e := Expansion(env, s, amt, regs);
            && (e.Break? <==>
                U64(sp - 8) < env.base || U64(sp - 16) < env.base || U64(sp - 16 - amt) < env.base)
            && (e.Continue? ==> e.s == FramePushed(env.host, s, amt, regs))
  {
    PushFrameEffect(env, s);
    var a := PushFrameFn(env, s);
    if a.Continue? {
      U64Shift(s.Sp() - 16, amt);
      var b := WithSp(a.s, U64(s.Sp() - 16 - amt));
      SavesIsSaveRegs(env, b, amt, regs);
      assert b.x == s.x[SP := U64(s.Sp() - 16 - amt)];
    }
  }

  lemma PushFrameSaveShape(env: Env, s: State, amt: u16, regs: RegSet)
    ensures var e := PushFrameSaveFn(env, s, amt, regs);
            && (e.Break? <==> U64(s.Sp() - 16 - amt) < env.base)
            && (e.Continue? ==> e.s == FramePushed(env.host, s, amt, regs))
  {
    U64Shift(s.Sp() - 16 - amt, amt);
    U64Shift(s.Sp() - 16 - amt, amt + 8);
  }

  /** When a decrement by `amt + 16` and its three parts agree on falling below `base`. */
  lemma SplitDecrement(sp: u64, base: u64, amt: u16)
    requires base <= sp
    ensures (U64(sp - 16 - amt) < base <==>
             U64(sp - 8) < base || U64(sp - 16) < base || U64(sp - 16 - amt) < base) <==>
            (amt + 16 <= sp || sp < 8 || base + 8 <= sp < 16 || base + 16 <= sp)
  {
  }

  /**
   From a stack pointer inside the stack, `push_frame_save` traps exactly when its expansion does,
   unless the one combined decrement wraps below address zero past checks that would have caught it.
   When neither traps they reach the same state.
   */
  lemma PushFrameSaveIsExpansion(env: Env, s: State, amt: u16, regs: RegSet)
    requires env.host == LittleEndian()
    requires env.base <= s.Sp()
    ensures var sp := s.Sp();
            (PushFrameSaveFn(env, s, amt, regs).Break? <==> Expansion(env, s, amt, regs).Break?) <==>
              (amt + 16 <= sp || sp < 8 || env.base + 8 <= sp < 16 || env.base + 16 <= sp)
    ensures Expansion(env, s, amt, regs).Continue? ==>
              Expansion(env, s, amt, regs) == PushFrameSaveFn(env, s, amt, regs)
  {
    ExpansionEffect(env, s, amt, regs);
    PushFrameSaveShape(env, s, amt, regs);
    SplitDecrement(s.Sp(), env.base, amt);
  }

  /**
   A stack without room: its allocation is empty, so its base is the dangling but aligned address 16,
   where `sp` starts. The expansion overflows at once, and the combined check misses it for every
   `amt` but zero.
   */
  lemma PushFrameSaveWrapExample(env: Env, s: State, amt: u16)
    requires env.host == LittleEndian()
    requires env.base == 16 && env.len == 0 && s.Sp() == 16
    ensures Expansion(env, s, amt, []).Break?
    ensures PushFrameSaveFn(env, s, amt, []).Continue? <==> amt > 0
  {
    ExpansionEffect(env, s, amt, []);
    PushFrameSaveShape(env, s, amt, []);
  }

  // ----- The inverse -----

  lemma FrameWordsHold(h: Host, s: State)
    requires Lawful(h) && 16 <= s.Sp()
    ensures NativeLoad(h, FrameWords(h, s), s.Sp() - 16) == s.fp
    ensures NativeLoad(h, FrameWords(h, s), s.Sp() - 8) == s.lr
    ensures ChangedOnly(s.mem, FrameWords(h, s), s.Sp() - 16, s.Sp())
  {
    var sp := s.Sp();
    U64Id(sp - 8);
    U64Id(sp - 16);
    var m1 := NativeStore(h, s.mem, sp - 8, s.lr);
    var m2 := NativeStore(h, m1, sp - 16, s.fp);
    NativeLoadStore(h, m1, sp - 16, s.fp);
    NativeLoadStore(h, s.mem, sp - 8, s.lr);
    NativeFrame(h, s.mem, sp - 8, s.lr);
    NativeFrame(h, m1, sp - 16, s.fp);
    NativeAgree(h, m1, m2, sp - 8);
  }

  /** A pushed frame: its words and slots, and no other byte changed. */
  lemma {:induction false} FramePushedHolds(h: Host, s: State, amt: u16, regs: RegSet)
    requires Lawful(h)
    requires amt + 16 <= s.Sp() && 8 * |regs| + 16 <= s.Sp()
    ensures var s1 := FramePushed(h, s, amt, regs); var fp := s.Sp() - 16;
            && s1 == s.(x := s.x[SP := fp - amt], fp := fp, mem := s1.mem)
            && NativeLoad(h, s1.mem, fp) == s.fp
            && NativeLoad(h, s1.mem, fp + 8) == s.lr
            && SlotsHold(h, s1.mem, fp, regs, s1.x)
    ensures ChangedOnly(s.mem, FramePushed(h, s, amt, regs).mem, s.Sp() - 16 - 8 * |regs|, s.Sp())
  {
    var s1 := FramePushed(h, s, amt, regs);
    var fp := s.Sp() - 16;
    U64Id(fp);
    U64Id(fp - amt);
    var m := FrameWords(h, s);
    FrameWordsHold(h, s);
    SaveRegsSlots(h, s1.x, m, amt, regs);
    SaveRegsFrame(h, s1.x, m, amt, regs);
    NativeAgree(h, m, s1.mem, fp);
    NativeAgree(h, m, s1.mem, fp + 8);
  }

  /** What `pop_frame` finds at `fp` is where it returns to. */
  lemma PopFrameEffect(h: Host, s: State)
    requires s.fp + 16 < B64
    ensures PopFrameFn(h, s) ==
              s.(x := s.x[SP := s.fp + 16], fp := NativeLoad(h, s.mem, s.fp), lr := NativeLoad(h, s.mem, s.fp + 8))
  {
    U64Id(s.fp + 8);
    U64Id(s.fp + 16);
    assert PopFrameFn(h, s).x == s.x[SP := s.fp + 16];
  }

  /** `pop_frame_restore` undoes `push_frame_save`: only memory differs afterwards. */
  lemma PopFrameRestoreUndoes(env: Env, s: State, amt: u16, regs: RegSet)
    requires Lawful(env.host)
    requires PushFrameSaveFn(env, s, amt, regs).Continue?
    requires amt + 16 <= s.Sp() && 8 * |regs| + 16 <= s.Sp()
    ensures var s1 := PushFrameSaveFn(env, s, amt, regs).s;
            PopFrameRestoreFn(env.host, s1, amt, regs) == s.(mem := s1.mem)
  {
    PushFrameSaveShape(env, s, amt, regs);
    FramePushedHolds(env.host, s, amt, regs);
    var s1 := FramePushed(env.host, s, amt, regs);
    RestoreRegsValues(env.host, s1.x, s1.mem, amt, regs, s1.x);
    assert RestoreRegs(env.host, s1.x, s1.mem, amt, regs) == s1.x;
    PopFrameEffect(env.host, s1);
    assert s1.x[SP := s.Sp()] == s.x;
  }
}
