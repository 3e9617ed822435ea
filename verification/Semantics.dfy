/** What a function of the intermediate representation does: its executions, and its paths. */
module Semantics {
  import opened Lists
  import opened Wrappers
  import opened Layouts
  import opened Ir
  import opened Mutations

  type Val = int

  /** An instruction that was executed, and the values it saw. */
  datatype Event = Event(inst: Inst, args: List<Val>)

  /** Where execution stands: the instructions to come in this block, the values, and what has happened. */
  datatype State = State(code: List<Inst>, env: map<Value, Val>, trace: List<Event>)

  /**
   The meaning of opcodes, which may depend on everything that happened before: the values that an
   instruction produces, if execution goes on after it, and the destination that a branch takes.
   */
  datatype Meaning = Meaning(
    run: (Op, List<Val>, List<Event>) -> Option<List<Val>>,
    choose: (Op, List<Val>, List<Event>) -> nat)

  function Get(env: map<Value, Val>, v: Value): Val { if v in env then env[v] else 0 }

  function Read(f: Func, env: map<Value, Val>, l: List<Value>): List<Val>
  {
    if l.Nil? then Nil else Cons(Get(env, Resolve(f, l.head)), Read(f, env, l.tail))
  }

  function Bind(env: map<Value, Val>, names: List<Value>, vals: List<Val>): map<Value, Val>
    decreases names
  {
    if names.Nil? || vals.Nil? then env else Bind(env[names.head := vals.head], names.tail, vals.tail)
  }

  function NthDest(dests: List<Dest>, k: nat): Dest
    requires k < Length(dests)
  {
    if k == 0 then dests.head else NthDest(dests.tail, k - 1)
  }

  function Enter(f: Func, s: State, trace: List<Event>, d: Dest): State
  {
    State(InstsOf(f.layout, d.block), Bind(s.env, Params(f, d.block), Read(f, s.env, d.args)), trace)
  }

  predicate IsJump(d: InstData) { d.op.Jump? && d.dests.Cons? && d.dests.tail.Nil? }

  /** One instruction. A jump leaves no event; when execution stops, no code remains. */
  function Step(f: Func, sem: Meaning, s: State): Option<State>
  {
    if s.code.Nil? then None
    else
      var i, d := s.code.head, Data(f, s.code.head);
      if IsJump(d) then Some(Enter(f, s, s.trace, d.dests.head))
      else
        var vals := Read(f, s.env, d.args);
        var trace := Cons(Event(i, vals), s.trace);
        if d.dests.Nil? then
          match sem.run(d.op, vals, s.trace)
          case Some(rs) => Some(State(s.code.tail, Bind(s.env, d.results, rs), trace))
          case None => Some(State(Nil, s.env, trace))
        else
          var k := sem.choose(d.op, vals, s.trace);
          if k < Length(d.dests) then Some(Enter(f, s, trace, NthDest(d.dests, k))) else Some(State(Nil, s.env, trace))
  }

  /** The state after `n` steps, or the last one if there are fewer. */
  function Run(f: Func, sem: Meaning, s: State, n: nat): State
    decreases n
  {
    if n == 0 then s
    else
      match Step(f, sem, s)
      case None => s
      case Some(s') => Run(f, sem, s', n - 1)
  }

  // ----- Paths -----

  /** A point at which values are defined: the start of a block, or an instruction. */
  datatype Node = BlockStart(block: Block) | At(inst: Inst)

  function Rest(insts: List<Inst>, i: Inst): List<Inst>
  {
    if insts.Nil? then Nil else if insts.head == i then insts.tail else Rest(insts.tail, i)
  }

  /** The instructions after `i` in its block. */
  function AfterAll(layout: List<Blk>, i: Inst): List<Inst>
  {
    if layout.Nil? then Nil
    else if Has(layout.head.insts, i) then Rest(layout.head.insts, i)
    else AfterAll(layout.tail, i)
  }

  function CodeAt(f: Func, n: Node): List<Inst>
  {
    match n
    case BlockStart(b) => InstsOf(f.layout, b)
    case At(i) => AfterAll(f.layout, i)
  }

  /** Control can go from one point to the other. */
  predicate Edge(f: Func, from: Node, to: Node)
  {
    match to
    case At(i) => CodeAt(f, from).Cons? && CodeAt(f, from).head == i && (from.At? ==> Data(f, from.inst).dests.Nil?)
    case BlockStart(b) => from.At? && Leads(Data(f, from.inst).dests, b)
  }

  /** A path from the entry, the latest point first. */
  predicate IsPath(f: Func, path: List<Node>)
    requires f.layout.Cons?
  {
    path.Cons? &&
    if path.tail.Nil? then path.head == BlockStart(f.layout.head.id)
    else Edge(f, path.tail.head, path.head) && IsPath(f, path.tail)
  }

  predicate In(l: List<Value>, v: Value) { l.Cons? && (l.head == v || In(l.tail, v)) }

  predicate Defines(f: Func, n: Node, v: Value)
  {
    match n
    case BlockStart(b) => In(Params(f, b), v)
    case At(i) => In(Data(f, i).results, v)
  }

  predicate DefinedOn(f: Func, path: List<Node>, v: Value)
  {
    path.Cons? && (Defines(f, path.head, v) || DefinedOn(f, path.tail, v))
  }

  predicate UsedIn(f: Func, l: List<Value>, v: Value) { l.Cons? && (Resolve(f, l.head) == v || UsedIn(f, l.tail, v)) }

  predicate UsedInDests(f: Func, dests: List<Dest>, v: Value)
  {
    dests.Cons? && (UsedIn(f, dests.head.args, v) || UsedInDests(f, dests.tail, v))
  }

  /** Whether an instruction reads a value, for itself or for a destination. */
  predicate Uses(f: Func, i: Inst, v: Value) { UsedIn(f, Data(f, i).args, v) || UsedInDests(f, Data(f, i).dests, v) }

  /** Every value has one definition, and every path to a use passes it. */
  ghost predicate Ssa(f: Func)
    requires f.layout.Cons?
  {
    && (forall m, n, v: Value :: Defines(f, m, v) && Defines(f, n, v) ==> m == n)
    && (forall path, v: Value :: IsPath(f, path) && path.head.At? && Uses(f, path.head.inst, v) ==>
          DefinedOn(f, path.tail, v))
  }

  /** Only the last instruction of a block branches. */
  ghost predicate BranchesLast(f: Func)
  {
    forall b: Block, i: Inst :: Has(InstsOf(f.layout, b), i) && Data(f, i).dests.Cons? ==>
      Last(InstsOf(f.layout, b)) == Some(i)
  }

  /** What an alias stands for is not an alias, and neither is a value with a definition. */
  ghost predicate AliasesResolved(f: Func)
  {
    && (forall v: Value :: v in f.alias ==> f.alias[v] !in f.alias)
    && (forall n, v: Value :: Defines(f, n, v) ==> v !in f.alias)
  }

  predicate Distinct(l: List<Value>) { l.Cons? ==> !In(l.tail, l.head) && Distinct(l.tail) }

  /** A function that the verifier accepts. */
  ghost predicate Valid(f: Func)
  {
    && Sound(f) && Ssa(f) && BranchesLast(f) && AliasesResolved(f)
    && forall b: Block :: Distinct(Params(f, b))
  }

  // ----- Code and paths -----

  predicate TailOf(insts: List<Inst>, code: List<Inst>) { insts == code || (insts.Cons? && TailOf(insts.tail, code)) }

  lemma {:induction false} TailHas(insts: List<Inst>, code: List<Inst>, i: Inst)
    requires TailOf(insts, code) && Has(code, i)
    ensures Has(insts, i)
  {
    if insts != code { TailHas(insts.tail, code, i); }
  }

  lemma {:induction false} TailRest(b: Block, insts: List<Inst>, code: List<Inst>)
    requires TailOf(insts, code) && code.Cons? && DistinctInsts(BlockPositions(b, insts))
    ensures Rest(insts, code.head) == code.tail && Has(insts, code.head) && TailOf(insts, code.tail)
    decreases insts
  {
    if insts != code {
      TailRest(b, insts.tail, code);
      NoInstHas(b, insts.tail, insts.head);
    }
  }

  /** The code after an instruction is what follows it in the only block that holds it. */
  lemma {:induction false} AfterTail(layout: List<Blk>, b: Block, code: List<Inst>)
    requires WellFormed(layout) && TailOf(InstsOf(layout, b), code) && code.Cons?
    ensures AfterAll(layout, code.head) == code.tail && TailOf(InstsOf(layout, b), code.tail)
    ensures Has(InstsOf(layout, b), code.head)
    decreases layout
  {
    if layout.Nil? {
      assert false;
    } else {
      var c := layout.head;
      var here, later := BlockPositions(c.id, c.insts), Positions(layout.tail);
      AppendDistinct(here, later);
      if c.id == b {
        TailRest(b, c.insts, code);
      } else {
        AfterTail(layout.tail, b, code);
        if Has(c.insts, code.head) {
          EarlierBlock(c.id, c.insts, later, code.head);
          CountNoInst(layout.tail, code.head);
          InstsCount(layout.tail, b, code.head);
        }
      }
    }
  }

  /** Every point of a path has the rest of some block before it. */
  lemma {:induction false} CodeOnPath(f: Func, path: List<Node>) returns (b: Block)
    requires Sound(f) && IsPath(f, path)
    ensures TailOf(InstsOf(f.layout, b), CodeAt(f, path.head))
    ensures path.head.At? ==> Has(InstsOf(f.layout, b), path.head.inst)
    decreases path
  {
    match path.head
    case BlockStart(c) => b := c;
    case At(i) =>
      b := CodeOnPath(f, path.tail);
      AfterTail(f.layout, b, CodeAt(f, path.tail.head));
  }

  /** Executing the next instruction extends the path. */
  lemma {:induction false} PathOn(f: Func, path: List<Node>)
    requires Sound(f) && IsPath(f, path) && CodeAt(f, path.head).Cons?
    requires path.head.At? ==> Data(f, path.head.inst).dests.Nil?
    ensures var i := CodeAt(f, path.head).head;
            IsPath(f, Cons(At(i), path)) && CodeAt(f, At(i)) == CodeAt(f, path.head).tail
  {
    var b := CodeOnPath(f, path);
    AfterTail(f.layout, b, CodeAt(f, path.head));
  }

  // ----- Following a path -----

  ghost predicate Reached(f: Func, n: Node)
    requires f.layout.Cons?
  {
    exists path: List<Node> :: IsPath(f, path) && path.head == n
  }

  function Start(f: Func, env: map<Value, Val>): State
    requires f.layout.Cons?
  {
    State(InstsOf(f.layout, f.layout.head.id), env, Nil)
  }

  /** A meaning in which nothing stops, and a branch picks its destination by how much has happened before it. */
  function Guided(picks: map<nat, nat>): Meaning
  {
    Meaning((op: Op, vals: List<Val>, trace: List<Event>) => Some(Nil),
            (op: Op, vals: List<Val>, trace: List<Event>) => if Length(trace) in picks then picks[Length(trace)] else 0)
  }

  lemma {:induction false} StepLonger(f: Func, sem: Meaning, s: State)
    requires s.code.Cons?
    ensures Step(f, sem, s).Some?
    ensures var d, s' := Data(f, s.code.head), Step(f, sem, s).value;
            Length(s'.trace) == Length(s.trace) + if IsJump(d) then 0 else 1
  {
  }

  lemma {:induction false} RunLonger(f: Func, sem: Meaning, s: State, n: nat)
    ensures Length(s.trace) <= Length(Run(f, sem, s, n).trace)
    decreases n
  {
    if n != 0 && s.code.Cons? {
      StepLonger(f, sem, s);
      RunLonger(f, sem, Step(f, sem, s).value, n - 1);
    }
  }

  /** One step more. */
  lemma {:induction false} RunOn(f: Func, sem: Meaning, s: State, n: nat)
    ensures var t := Run(f, sem, s, n);
            Run(f, sem, s, n + 1) == if t.code.Nil? then t else Step(f, sem, t).value
    ensures Run(f, sem, s, n).code.Cons? ==> Step(f, sem, Run(f, sem, s, n)).Some?
    decreases n
  {
    if s.code.Cons? {
      StepLonger(f, sem, s);
      if n != 0 { RunOn(f, sem, Step(f, sem, s).value, n - 1); }
    }
  }

  /** A pick that comes later changes nothing. */
  lemma {:induction false} LaterPick(f: Func, picks: map<nat, nat>, at: nat, k: nat, s: State, n: nat)
    requires Length(Run(f, Guided(picks), s, n).trace) <= at
    ensures Run(f, Guided(picks[at := k]), s, n) == Run(f, Guided(picks), s, n)
    decreases n
  {
    if n != 0 && s.code.Cons? {
      var s' := Step(f, Guided(picks), s).value;
      StepLonger(f, Guided(picks), s);
      RunLonger(f, Guided(picks), s', n - 1);
      LaterPick(f, picks, at, k, s', n - 1);
    }
  }

  /** What is next at the end of a path: the code of the block, or the instruction and what follows it. */
  function NextOn(f: Func, n: Node): List<Inst>
  {
    match n
    case BlockStart(b) => CodeAt(f, n)
    case At(i) => Cons(i, CodeAt(f, n))
  }

  lemma {:induction false} DestTo(dests: List<Dest>, b: Block) returns (k: nat)
    requires Leads(dests, b)
    ensures k < Length(dests) && NthDest(dests, k).block == b
    decreases dests
  {
    if dests.head.block == b {
      k := 0;
    } else {
      k := DestTo(dests.tail, b);
      k := k + 1;
    }
  }

  /** Every path is followed by some execution. */
  lemma {:induction false} Follow(f: Func, path: List<Node>) returns (picks: map<nat, nat>, n: nat)
    requires Sound(f) && IsPath(f, path)
    ensures Run(f, Guided(picks), Start(f, map[]), n).code == NextOn(f, path.head)
    decreases path
  {
    picks, n := map[], 0;
    if path.tail.Cons? {
      picks, n := Follow(f, path.tail);
      match path.head
      case At(i) => n := FollowAt(f, path, picks, n);
      case BlockStart(b) => picks, n := FollowBranch(f, path, picks, n);
    }
  }

  lemma {:induction false} FollowAt(f: Func, path: List<Node>, picks: map<nat, nat>, n: nat) returns (n': nat)
    requires Sound(f) && IsPath(f, path) && path.tail.Cons? && path.head.At?
    requires Run(f, Guided(picks), Start(f, map[]), n).code == NextOn(f, path.tail.head)
    ensures Run(f, Guided(picks), Start(f, map[]), n').code == NextOn(f, path.head)
  {
    PathOn(f, path.tail);
    n' := n;
    if path.tail.head.At? {
      RunOn(f, Guided(picks), Start(f, map[]), n);
      n' := n + 1;
    }
  }

  lemma {:induction false} FollowBranch(f: Func, path: List<Node>, picks: map<nat, nat>, n: nat)
    returns (picks': map<nat, nat>, n': nat)
    requires Sound(f) && IsPath(f, path) && path.tail.Cons? && path.head.BlockStart?
    requires Run(f, Guided(picks), Start(f, map[]), n).code == NextOn(f, path.tail.head)
    ensures Run(f, Guided(picks'), Start(f, map[]), n').code == NextOn(f, path.head)
  {
    var start := Start(f, map[]);
    var s := Run(f, Guided(picks), start, n);
    var k := DestTo(Data(f, path.tail.head.inst).dests, path.head.block);
    picks', n' := picks[Length(s.trace) := k], n + 1;
    LaterPick(f, picks, Length(s.trace), k, start, n);
    RunOn(f, Guided(picks'), start, n);
  }
}
