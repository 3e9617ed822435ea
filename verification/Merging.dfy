/** Merging a block into its predecessor preserves what a function does. */
module Merging {
  import opened Lists
  import opened Wrappers
  import opened Layouts
  import opened Ir
  import opened Mutations
  import opened Semantics

  /** A merge: block `b` into its sole and different predecessor, whose last instruction leads only to it. */
  datatype Merge = Merge(f: Func, pred: Pos, b: Block)

  ghost predicate CanMerge(m: Merge)
  {
    && Valid(m.f) && HasBlock(m.f.layout, m.b) && m.f.layout.head.id != m.b
    && Preds(m.f, m.b) == Cons(m.pred, Nil) && m.pred.block != m.b
    && Data(m.f, m.pred.inst).dests.Cons? && Data(m.f, m.pred.inst).dests.tail.Nil?
    && Length(Args(m)) == Length(Params(m.f, m.b))
  }

  /** What the merge removes is a jump, or can never be executed. */
  ghost predicate Harmless(m: Merge)
    requires m.f.layout.Cons?
  {
    Data(m.f, m.pred.inst).op.Jump? || !Reached(m.f, At(m.pred.inst))
  }

  function Args(m: Merge): List<Value>
  {
    if Data(m.f, m.pred.inst).dests.Cons? then Data(m.f, m.pred.inst).dests.head.args else Nil
  }

  /** The value that the jump passes for a parameter, resolved. */
  function PassedIn(alias: map<Value, Value>, params: List<Value>, args: List<Value>, p: Value): Value
    decreases params
  {
    if params.Nil? || args.Nil? then p
    else if params.head == p then Lookup(alias, args.head)
    else PassedIn(alias, params.tail, args.tail, p)
  }

  function PassedFor(m: Merge, p: Value): Value { PassedIn(m.f.alias, Params(m.f, m.b), Args(m), p) }

  // ----- Reaching the block -----

  predicate Through(path: List<Node>, b: Block) { path.Cons? && (path.head == BlockStart(b) || Through(path.tail, b)) }

  /** Only the jump of the predecessor leads to the block. */
  lemma {:induction false} OnlyFromJump(m: Merge, path: List<Node>)
    requires CanMerge(m) && IsPath(m.f, Cons(BlockStart(m.b), path))
    ensures path.Cons? && path.head == At(m.pred.inst) && IsPath(m.f, path)
  {
    var i := path.head.inst;
    var c := CodeOnPath(m.f, path);
    LeadsFromPred(m.f, m.f.layout, c, i, m.b);
  }

  lemma {:induction false} LeadsFromPred(f: Func, layout: List<Blk>, c: Block, i: Inst, b: Block)
    requires Last(InstsOf(layout, c)) == Some(i) && Leads(Data(f, i).dests, b)
    ensures Member(PredsIn(f, layout, b), Pos(c, i))
    decreases layout
  {
    if layout.Cons? && layout.head.id != c { LeadsFromPred(f, layout.tail, c, i, b); }
  }

  lemma {:induction false} PassedIsUsed(f: Func, params: List<Value>, args: List<Value>, p: Value)
    requires In(params, p) && Length(params) == Length(args)
    ensures UsedIn(f, args, PassedIn(f.alias, params, args, p))
    decreases params
  {
    if params.head != p { PassedIsUsed(f, params.tail, args.tail, p); }
  }

  /** The jump uses every value it passes. */
  lemma {:induction false} JumpUses(m: Merge, p: Value)
    requires CanMerge(m) && In(Params(m.f, m.b), p)
    ensures Uses(m.f, m.pred.inst, PassedFor(m, p))
  {
    PassedIsUsed(m.f, Params(m.f, m.b), Args(m), p);
  }

  /** A path through the block has a shorter path, to the definition of any value that the jump passes. */
  lemma {:induction false} DefinedBefore(m: Merge, path: List<Node>, p: Value) returns (q: List<Node>)
    requires CanMerge(m) && IsPath(m.f, path) && Through(path, m.b) && In(Params(m.f, m.b), p)
    ensures IsPath(m.f, q) && Defines(m.f, q.head, PassedFor(m, p)) && Length(q) < Length(path)
    decreases path
  {
    if path.head == BlockStart(m.b) {
      OnlyFromJump(m, path.tail);
      JumpUses(m, p);
      assert IsPath(m.f, path.tail) && path.tail.head.At? && Uses(m.f, path.tail.head.inst, PassedFor(m, p));
      q := DefinitionOn(m.f, path.tail.tail, PassedFor(m, p));
      SuffixPath(m.f, path.tail);
    } else {
      SuffixPath(m.f, path);
      q := DefinedBefore(m, path.tail, p);
    }
  }

  lemma {:induction false} SuffixPath(f: Func, path: List<Node>)
    requires f.layout.Cons? && IsPath(f, path) && path.tail.Cons?
    ensures IsPath(f, path.tail)
  {
  }

  /** The part of a path up to a point that defines a value. */
  lemma {:induction false} DefinitionOn(f: Func, path: List<Node>, v: Value) returns (q: List<Node>)
    requires f.layout.Cons? && DefinedOn(f, path, v) && (path.Cons? ==> IsPath(f, path))
    ensures IsPath(f, q) && Defines(f, q.head, v) && Length(q) <= Length(path)
    decreases path
  {
    if Defines(f, path.head, v) { q := path; } else { q := DefinitionOn(f, path.tail, v); }
  }

  /** A parameter of the block is not passed to it when the block can be reached. */
  lemma {:induction false} PassedIsNoParam(m: Merge, path: List<Node>, p: Value)
    requires CanMerge(m) && IsPath(m.f, path) && Through(path, m.b) && In(Params(m.f, m.b), p)
    ensures !In(Params(m.f, m.b), PassedFor(m, p))
    decreases Length(path)
  {
    if In(Params(m.f, m.b), PassedFor(m, p)) {
      var q := DefinedBefore(m, path, p);
      assert Defines(m.f, BlockStart(m.b), PassedFor(m, p));
      PassedIsNoParam(m, q, p);
    }
  }

  /** The definition of a passed value can be reached without the block. */
  lemma {:induction false} AvoidBlock(m: Merge, n: Node, p: Value) returns (q: List<Node>)
    requires CanMerge(m) && Reached(m.f, n) && In(Params(m.f, m.b), p) && Defines(m.f, n, PassedFor(m, p))
    ensures IsPath(m.f, q) && q.head == n && !Through(q, m.b)
  {
    q :| IsPath(m.f, q) && q.head == n;
    while Through(q, m.b)
      invariant IsPath(m.f, q) && q.head == n
      decreases Length(q)
    {
      q := DefinedBefore(m, q, p);
    }
  }

  // ----- A use of a parameter sees the value that was passed -----

  /** The block was passed, and `v` has not been defined again since. */
  predicate Intact(m: Merge, path: List<Node>, v: Value)
  {
    path.Cons? && (path.head == BlockStart(m.b) || (!Defines(m.f, path.head, v) && Intact(m, path.tail, v)))
  }

  lemma {:induction false} ParamDefinedHere(m: Merge, path: List<Node>, p: Value)
    requires CanMerge(m) && In(Params(m.f, m.b), p) && DefinedOn(m.f, path, p)
    ensures Through(path, m.b)
    decreases path
  {
    if Defines(m.f, path.head, p) {
      assert Defines(m.f, BlockStart(m.b), p);
    } else {
      ParamDefinedHere(m, path.tail, p);
    }
  }

  /** A path that is not intact has a later definition after the last time it passed the block. */
  lemma {:induction false} LaterDefinition(m: Merge, path: List<Node>, v: Value)
    returns (front: List<Node>, back: List<Node>)
    requires Through(path, m.b) && !Intact(m, path, v)
    ensures path == Append(front, back) && back.Cons? && Defines(m.f, back.head, v) && !Through(front, m.b)
    decreases path
  {
    if Defines(m.f, path.head, v) {
      front, back := Nil, path;
    } else {
      front, back := LaterDefinition(m, path.tail, v);
      front := Cons(path.head, front);
    }
  }

  lemma {:induction false} BackPath(f: Func, front: List<Node>, back: List<Node>)
    requires f.layout.Cons? && IsPath(f, Append(front, back)) && back.Cons?
    ensures IsPath(f, back)
    decreases front
  {
    if front.Cons? { BackPath(f, front.tail, back); }
  }

  /** A path may take another way to a point on it. */
  lemma {:induction false} Splice(f: Func, front: List<Node>, back: List<Node>, q: List<Node>)
    requires f.layout.Cons? && IsPath(f, Append(front, back)) && back.Cons? && IsPath(f, q) && q.head == back.head
    ensures IsPath(f, Append(front, q))
    decreases front
  {
    if front.Cons? { Splice(f, front.tail, back, q); }
  }

  lemma {:induction false} ThroughAppend(a: List<Node>, c: List<Node>, b: Block)
    ensures Through(Append(a, c), b) <==> Through(a, b) || Through(c, b)
    decreases a
  {
    if a.Cons? { ThroughAppend(a.tail, c, b); }
  }

  /** After a later definition, a use could be reached without the block. */
  lemma {:induction false} Detour(m: Merge, front: List<Node>, n: Node, back: List<Node>, p: Value)
    returns (path: List<Node>)
    requires CanMerge(m) && front.Cons? && IsPath(m.f, Append(front, Cons(n, back))) && In(Params(m.f, m.b), p)
    requires Defines(m.f, n, PassedFor(m, p)) && !Through(front, m.b)
    ensures IsPath(m.f, Cons(front.head, path)) && !Through(path, m.b)
  {
    BackPath(m.f, front, Cons(n, back));
    assert IsPath(m.f, Cons(n, back)) && Cons(n, back).head == n;
    var q := AvoidBlock(m, n, p);
    Splice(m.f, front, Cons(n, back), q);
    ThroughAppend(front.tail, q, m.b);
    path := Append(front.tail, q);
  }

  /** A path to a use of a parameter goes through the block. */
  lemma {:induction false} UseIsThrough(m: Merge, path: List<Node>, i: Inst, p: Value)
    requires CanMerge(m) && IsPath(m.f, Cons(At(i), path)) && Uses(m.f, i, p) && In(Params(m.f, m.b), p)
    ensures Through(path, m.b)
  {
    var full := Cons(At(i), path);
    assert IsPath(m.f, full) && full.head.At? && Uses(m.f, full.head.inst, p);
    ParamDefinedHere(m, path, p);
  }

  /** Wherever a parameter of the block is used, the value that was passed for it is still intact. */
  lemma {:induction false} UseIntact(m: Merge, path: List<Node>, i: Inst, p: Value)
    requires CanMerge(m) && IsPath(m.f, Cons(At(i), path)) && path.Cons? && Uses(m.f, i, p) && In(Params(m.f, m.b), p)
    ensures Through(path, m.b) && Intact(m, path, PassedFor(m, p))
  {
    UseIsThrough(m, path, i, p);
    if !Intact(m, path, PassedFor(m, p)) {
      var front, back := LaterDefinition(m, path, PassedFor(m, p));
      var detour := Detour(m, Cons(At(i), front), back.head, back.tail, p);
      UseIsThrough(m, detour, i, p);
    }
  }

  // ----- What values stand for after the merge -----

  /** Different parameters, none of which is an alias. */
  ghost predicate Plain(alias: map<Value, Value>, params: List<Value>)
  {
    Distinct(params) && forall p: Value :: In(params, p) ==> p !in alias
  }

  lemma AliasOne(alias: map<Value, Value>, p: Value, a: Value, v: Value)
    requires p !in alias
    ensures Lookup(Aliased(alias, p, a), v) == if Lookup(alias, v) == p then Lookup(alias, a) else Lookup(alias, v)
  {
  }

  lemma PlainTail(alias: map<Value, Value>, params: List<Value>, a: Value)
    requires Plain(alias, params) && params.Cons?
    ensures params.head !in alias && Plain(alias, params.tail) && Plain(Aliased(alias, params.head, a), params.tail)
  {
    assert In(params, params.head);
    forall p: Value | In(params.tail, p)
      ensures p !in alias && p != params.head
    {
      assert In(params, p);
    }
  }

  /** A value that stands for no parameter still stands for the same. */
  lemma {:induction false} OthersResolveSame(alias: map<Value, Value>, params: List<Value>, args: List<Value>, v: Value)
    requires Plain(alias, params) && !In(params, Lookup(alias, v))
    ensures Lookup(AliasedAll(alias, params, args), v) == Lookup(alias, v)
    decreases params
  {
    if params.Cons? && args.Cons? {
      PlainTail(alias, params, args.head);
      AliasOne(alias, params.head, args.head, v);
      OthersResolveSame(if params.head == args.head then alias else Aliased(alias, params.head, args.head),
                        params.tail, args.tail, v);
    }
  }

  /** No parameter is passed for a parameter. */
  ghost predicate Separate(alias: map<Value, Value>, params: List<Value>, args: List<Value>)
  {
    && Plain(alias, params) && Length(params) == Length(args)
    && forall p: Value :: In(params, p) ==> !In(params, PassedIn(alias, params, args, p))
  }

  lemma {:induction false} PassedNotHead(alias: map<Value, Value>, p0: Value, a0: Value, params: List<Value>,
                                         args: List<Value>, p: Value)
    requires p0 !in alias && In(params, p) && Length(params) == Length(args) && PassedIn(alias, params, args, p) != p0
    ensures PassedIn(Aliased(alias, p0, a0), params, args, p) == PassedIn(alias, params, args, p)
    decreases params
  {
    if params.head == p {
      AliasOne(alias, p0, a0, args.head);
    } else {
      PassedNotHead(alias, p0, a0, params.tail, args.tail, p);
    }
  }

  lemma {:induction false} SeparateHead(alias: map<Value, Value>, params: List<Value>, args: List<Value>)
    requires Separate(alias, params, args) && params.Cons?
    ensures args.Cons? && params.head !in alias && !In(params, Lookup(alias, args.head)) && params.head != args.head
  {
    assert In(params, params.head);
    assert PassedIn(alias, params, args, params.head) == Lookup(alias, args.head);
  }

  /** Aliasing the first parameter does not change what is passed for the others. */
  lemma {:induction false} SeparateTail(alias: map<Value, Value>, params: List<Value>, args: List<Value>, p: Value)
    requires Separate(alias, params, args) && params.Cons? && In(params.tail, p)
    ensures p != params.head && args.Cons?
    ensures PassedIn(Aliased(alias, params.head, args.head), params.tail, args.tail, p) ==
              PassedIn(alias, params, args, p)
  {
    SeparateHead(alias, params, args);
    assert In(params, p) && In(params, params.head);
    assert PassedIn(alias, params, args, p) == PassedIn(alias, params.tail, args.tail, p);
    PassedNotHead(alias, params.head, args.head, params.tail, args.tail, p);
  }

  lemma SeparateRest(alias: map<Value, Value>, params: List<Value>, args: List<Value>)
    requires Separate(alias, params, args) && params.Cons?
    ensures args.Cons? && Separate(Aliased(alias, params.head, args.head), params.tail, args.tail)
  {
    SeparateHead(alias, params, args);
    PlainTail(alias, params, args.head);
    var next := Aliased(alias, params.head, args.head);
    forall p: Value | In(params.tail, p)
      ensures !In(params.tail, PassedIn(next, params.tail, args.tail, p))
    {
      assert In(params, p);
      SeparateTail(alias, params, args, p);
    }
  }

  /** A value that stood for a parameter stands for what was passed for it. */
  lemma {:induction false} ParamsResolve(alias: map<Value, Value>, params: List<Value>, args: List<Value>, v: Value)
    requires Separate(alias, params, args) && In(params, Lookup(alias, v))
    ensures Lookup(AliasedAll(alias, params, args), v) == PassedIn(alias, params, args, Lookup(alias, v))
    decreases params
  {
    var p, w := params.head, Lookup(alias, v);
    SeparateHead(alias, params, args);
    SeparateRest(alias, params, args);
    var next := Aliased(alias, p, args.head);
    AliasOne(alias, p, args.head, v);
    if w == p {
      OthersResolveSame(next, params.tail, args.tail, v);
    } else {
      SeparateTail(alias, params, args, w);
      ParamsResolve(next, params.tail, args.tail, v);
    }
  }

  // ----- Values -----

  lemma {:induction false} BindOther(env: map<Value, Val>, names: List<Value>, vals: List<Val>, v: Value)
    requires !In(names, v)
    ensures Get(Bind(env, names, vals), v) == Get(env, v)
    decreases names
  {
    if names.Cons? && vals.Cons? { BindOther(env[names.head := vals.head], names.tail, vals.tail, v); }
  }

  /** Two environments agree on everything but some values. */
  ghost predicate AgreeBut(but: List<Value>, env: map<Value, Val>, env': map<Value, Val>)
  {
    forall v: Value :: !In(but, v) ==> Get(env, v) == Get(env', v)
  }

  lemma {:induction false} BindAgree(but: List<Value>, env: map<Value, Val>, env': map<Value, Val>,
                                     names: List<Value>, vals: List<Val>)
    requires AgreeBut(but, env, env')
    ensures AgreeBut(but, Bind(env, names, vals), Bind(env', names, vals))
    decreases names
  {
    if names.Cons? && vals.Cons? {
      BindAgree(but, env[names.head := vals.head], env'[names.head := vals.head], names.tail, vals.tail);
    }
  }

  lemma {:induction false} BindBut(but: List<Value>, env: map<Value, Val>, names: List<Value>, vals: List<Val>)
    requires forall v: Value :: In(names, v) ==> In(but, v)
    ensures AgreeBut(but, Bind(env, names, vals), env)
  {
    forall v: Value | !In(but, v)
      ensures Get(Bind(env, names, vals), v) == Get(env, v)
    {
      BindOther(env, names, vals, v);
    }
  }

  /** Entering the block, a parameter gets the value that was passed for it. */
  lemma {:induction false} BindPassed(f: Func, env0: map<Value, Val>, env: map<Value, Val>, params: List<Value>,
                                      args: List<Value>, p: Value)
    requires Distinct(params) && Length(params) == Length(args) && In(params, p)
    ensures Get(Bind(env, params, Read(f, env0, args)), p) == Get(env0, PassedIn(f.alias, params, args, p))
    decreases params
  {
    if params.head == p {
      BindOther(env[p := Get(env0, Resolve(f, args.head))], params.tail, Read(f, env0, args.tail), p);
    } else {
      BindPassed(f, env0, env[params.head := Get(env0, Resolve(f, args.head))], params.tail, args.tail, p);
    }
  }

  /** As long as what was passed for a parameter is intact, both have the same value. */
  ghost predicate Tracked(m: Merge, path: List<Node>, env: map<Value, Val>)
  {
    forall p: Value :: In(Params(m.f, m.b), p) && Intact(m, path, PassedFor(m, p)) ==>
      Get(env, p) == Get(env, PassedFor(m, p))
  }

  /** The values that a point defines. */
  function DefsOf(f: Func, n: Node): List<Value> { if n.At? then Data(f, n.inst).results else Params(f, n.block) }

  /** Passing a point other than the start of the block, and binding the values it defines. */
  lemma {:induction false} TrackedOn(m: Merge, path: List<Node>, env: map<Value, Val>, n: Node, vals: List<Val>)
    requires CanMerge(m) && Tracked(m, path, env) && n != BlockStart(m.b)
    ensures Tracked(m, Cons(n, path), Bind(env, DefsOf(m.f, n), vals))
  {
    forall p: Value | In(Params(m.f, m.b), p) && Intact(m, Cons(n, path), PassedFor(m, p))
      ensures Get(Bind(env, DefsOf(m.f, n), vals), p) == Get(Bind(env, DefsOf(m.f, n), vals), PassedFor(m, p))
    {
      assert Defines(m.f, BlockStart(m.b), p) && !Defines(m.f, n, p);
      BindOther(env, DefsOf(m.f, n), vals, p);
      BindOther(env, DefsOf(m.f, n), vals, PassedFor(m, p));
    }
  }

  /** Passing a point without binding anything. */
  lemma TrackedPast(m: Merge, path: List<Node>, env: map<Value, Val>, n: Node)
    requires Tracked(m, path, env) && n != BlockStart(m.b)
    ensures Tracked(m, Cons(n, path), env)
  {
  }

  /** Entering the block makes every parameter equal to what was passed for it. */
  lemma {:induction false} TrackedEntry(m: Merge, path: List<Node>, env: map<Value, Val>)
    requires CanMerge(m) && IsPath(m.f, Cons(BlockStart(m.b), path))
    ensures Tracked(m, Cons(BlockStart(m.b), path), Bind(env, Params(m.f, m.b), Read(m.f, env, Args(m))))
  {
    var params := Params(m.f, m.b);
    forall p: Value | In(params, p)
      ensures Get(Bind(env, params, Read(m.f, env, Args(m))), p) ==
              Get(Bind(env, params, Read(m.f, env, Args(m))), PassedFor(m, p))
    {
      BindPassed(m.f, env, env, params, Args(m), p);
      PassedIsNoParam(m, Cons(BlockStart(m.b), path), p);
      BindOther(env, params, Read(m.f, env, Args(m)), PassedFor(m, p));
    }
  }

  lemma ParamsPlain(m: Merge)
    requires CanMerge(m)
    ensures Plain(m.f.alias, Params(m.f, m.b))
  {
    forall p: Value | In(Params(m.f, m.b), p)
      ensures p !in m.f.alias
    {
      assert Defines(m.f, BlockStart(m.b), p);
    }
  }

  /** A value that an instruction reads is the same before and after the merge. */
  lemma {:induction false} ValueSame(m: Merge, path: List<Node>, i: Inst, env: map<Value, Val>, env': map<Value, Val>,
                                     v: Value)
    requires CanMerge(m) && path.Cons? && IsPath(m.f, Cons(At(i), path)) && Uses(m.f, i, Resolve(m.f, v))
    requires Tracked(m, path, env) && AgreeBut(Params(m.f, m.b), env, env')
    ensures Get(env', Resolve(Merged(m.f, m.pred, m.b), v)) == Get(env, Resolve(m.f, v))
  {
    var params, w := Params(m.f, m.b), Resolve(m.f, v);
    ParamsPlain(m);
    if In(params, w) {
      UseIntact(m, path, i, w);
      forall p: Value | In(params, p)
        ensures !In(params, PassedFor(m, p))
      {
        PassedIsNoParam(m, path, p);
      }
      ParamsResolve(m.f.alias, params, Args(m), v);
    } else {
      OthersResolveSame(m.f.alias, params, Args(m), v);
    }
  }

  lemma {:induction false} ReadSame(m: Merge, path: List<Node>, i: Inst, env: map<Value, Val>, env': map<Value, Val>,
                                    l: List<Value>)
    requires CanMerge(m) && path.Cons? && IsPath(m.f, Cons(At(i), path))
    requires forall v: Value :: UsedIn(m.f, l, v) ==> Uses(m.f, i, v)
    requires Tracked(m, path, env) && AgreeBut(Params(m.f, m.b), env, env')
    ensures Read(Merged(m.f, m.pred, m.b), env', l) == Read(m.f, env, l)
    decreases l
  {
    if l.Cons? {
      assert UsedIn(m.f, l, Resolve(m.f, l.head));
      ValueSame(m, path, i, env, env', l.head);
      forall v: Value | UsedIn(m.f, l.tail, v)
        ensures Uses(m.f, i, v)
      {
        assert UsedIn(m.f, l, v);
      }
      ReadSame(m, path, i, env, env', l.tail);
    }
  }

  // ----- Code -----

  /** The code that stands after the merge for code that stood before it. */
  function Code(m: Merge, code: List<Inst>): List<Inst>
  {
    if Has(code, m.pred.inst) then Append(Without(code, m.pred.inst), InstsOf(m.f.layout, m.b)) else code
  }

  lemma CodeCons(m: Merge, i: Inst, code: List<Inst>)
    requires i != m.pred.inst
    ensures Code(m, Cons(i, code)) == Cons(i, Code(m, code))
  {
  }

  /** The jump is the last instruction of the predecessor, and in no other block. */
  lemma JumpIsLast(m: Merge)
    requires CanMerge(m)
    ensures HasBlock(m.f.layout, m.pred.block) && Last(InstsOf(m.f.layout, m.pred.block)) == Some(m.pred.inst)
    ensures Has(InstsOf(m.f.layout, m.pred.block), m.pred.inst) && OnlyIn(m.f.layout, m.pred.block, m.pred.inst)
    ensures Leads(Data(m.f, m.pred.inst).dests, m.b)
  {
    PredIs(m.f, m.f.layout, m.b, m.pred);
    HeldOnlyIn(m.f.layout, m.pred.block, m.pred.inst);
  }

  lemma {:induction false} LastTail(b: Block, insts: List<Inst>, code: List<Inst>)
    requires TailOf(insts, code) && code.Cons? && DistinctInsts(BlockPositions(b, insts))
    requires Last(insts) == Some(code.head)
    ensures code.tail.Nil?
    decreases insts
  {
    if insts == code {
      if insts.tail.Cons? {
        LastHas(insts.tail);
        NoInstHas(b, insts.tail, insts.head);
      }
    } else {
      LastTail(b, insts.tail, code);
    }
  }

  /** Where the jump is next, nothing follows it, and the code of the block stands in its place. */
  lemma {:induction false} CodeAtJump(m: Merge, path: List<Node>, code: List<Inst>)
    requires CanMerge(m) && OnPath(m.f, path, Cons(m.pred.inst, code))
    ensures Code(m, Cons(m.pred.inst, code)) == InstsOf(m.f.layout, m.b)
  {
    var all := Cons(m.pred.inst, code);
    var c := CodeOnPath(m.f, path);
    JumpIsLast(m);
    TailHas(InstsOf(m.f.layout, c), all, m.pred.inst);
    if c != m.pred.block { OnlyInOther(m.f.layout, m.pred.block, c, m.pred.inst); }
    BlockDistinct(m.f.layout, c);
    LastTail(c, InstsOf(m.f.layout, c), all);
    assert Without(code, m.pred.inst) == Nil;
  }

  /** The code of the block itself is unchanged. */
  lemma CodeOfBlock(m: Merge)
    requires CanMerge(m)
    ensures Code(m, InstsOf(m.f.layout, m.b)) == InstsOf(m.f.layout, m.b)
  {
    JumpIsLast(m);
    OnlyInOther(m.f.layout, m.pred.block, m.b, m.pred.inst);
  }

  /** Every other block holds the code that stands for its own. */
  lemma {:induction false} CodeOfOthers(m: Merge, c: Block)
    requires CanMerge(m) && c != m.b
    ensures InstsOf(Merged(m.f, m.pred, m.b).layout, c) == Code(m, InstsOf(m.f.layout, c))
  {
    JumpIsLast(m);
    BranchRemoved(m.f, m.pred);
    var l := RemoveInst(m.f.layout, m.pred.inst);
    RemoveBlockOthers(l, m.b, c);
    RemoveBlockOthers(l, m.b, m.pred.block);
    SetInstsBlocks(RemoveBlock(l, m.b), m.pred.block, Append(InstsOf(l, m.pred.block), InstsOf(l, m.b)), c);
    if c != m.pred.block { OnlyInOther(m.f.layout, m.pred.block, c, m.pred.inst); }
  }

  // ----- Simulation -----

  /** `path` leads to the code that is next. */
  predicate OnPath(f: Func, path: List<Node>, code: List<Inst>)
    requires f.layout.Cons?
  {
    IsPath(f, path) && CodeAt(f, path.head) == code && (path.head.At? ==> Data(f, path.head.inst).dests.Nil?)
  }

  /** The same has happened, and the same is to come. */
  ghost predicate Live(m: Merge, path: List<Node>, s: State, t: State)
    requires m.f.layout.Cons?
  {
    && s.trace == t.trace && OnPath(m.f, path, s.code) && t.code == Code(m, s.code)
    && Tracked(m, path, s.env) && AgreeBut(Params(m.f, m.b), s.env, t.env)
  }

  /** Both executions have stopped after the same. */
  predicate Stopped(s: State, t: State) { s.trace == t.trace && s.code.Nil? && t.code.Nil? }

  ghost predicate Related(m: Merge, path: List<Node>, s: State, t: State)
    requires m.f.layout.Cons?
  {
    Live(m, path, s, t) || Stopped(s, t)
  }

  /** The jump into the block: nothing happens after the merge. */
  lemma JumpStep(m: Merge, sem: Meaning, path: List<Node>, s: State, t: State) returns (path': List<Node>)
    requires CanMerge(m) && Harmless(m) && Live(m, path, s, t) && s.code.Cons? && s.code.head == m.pred.inst
    ensures Step(m.f, sem, s).Some? && Live(m, path', Step(m.f, sem, s).value, t)
    ensures Step(m.f, sem, s).value.code == InstsOf(m.f.layout, m.b)
  {
    JumpIsLast(m);
    CodeAtJump(m, path, s.code.tail);
    CodeOfBlock(m);
    PathOn(m.f, path);
    assert IsPath(m.f, Cons(At(m.pred.inst), path)) && Cons(At(m.pred.inst), path).head == At(m.pred.inst);
    path' := Cons(BlockStart(m.b), Cons(At(m.pred.inst), path));
    TrackedEntry(m, Cons(At(m.pred.inst), path), s.env);
    var params := Params(m.f, m.b);
    BindBut(params, s.env, params, Read(m.f, s.env, Args(m)));
  }

  /** Another branch, to a block other than the merged one. */
  lemma {:induction false} BranchesElsewhere(m: Merge, path: List<Node>, i: Inst, c: Block)
    requires CanMerge(m) && IsPath(m.f, Cons(At(i), path)) && i != m.pred.inst && Leads(Data(m.f, i).dests, c)
    ensures c != m.b
  {
    if c == m.b { OnlyFromJump(m, Cons(At(i), path)); }
  }

  lemma {:induction false} NthLeads(f: Func, dests: List<Dest>, k: nat)
    requires k < Length(dests)
    ensures Leads(dests, NthDest(dests, k).block)
    ensures forall v: Value :: UsedIn(f, NthDest(dests, k).args, v) ==> UsedInDests(f, dests, v)
    decreases dests
  {
    if k != 0 { NthLeads(f, dests.tail, k - 1); }
  }

  /** Entering another block, with the same values. */
  lemma {:induction false} EnterSame(m: Merge, path: List<Node>, s: State, t: State, d: Dest, trace: List<Event>)
    requires CanMerge(m) && path.Cons? && path.head.At?
    requires IsPath(m.f, Cons(BlockStart(d.block), path)) && d.block != m.b
    requires Tracked(m, path, s.env) && AgreeBut(Params(m.f, m.b), s.env, t.env)
    requires Read(Merged(m.f, m.pred, m.b), t.env, d.args) == Read(m.f, s.env, d.args)
    ensures Live(m, Cons(BlockStart(d.block), path), Enter(m.f, s, trace, d),
                 Enter(Merged(m.f, m.pred, m.b), t, trace, d))
  {
    var vals := Read(m.f, s.env, d.args);
    CodeOfOthers(m, d.block);
    TrackedOn(m, path, s.env, BlockStart(d.block), vals);
    BindAgree(Params(m.f, m.b), s.env, t.env, Params(m.f, d.block), vals);
  }

  /** The branch of any other instruction. */
  lemma BranchStep(m: Merge, path: List<Node>, s: State, t: State, d: Dest, trace: List<Event>)
    requires CanMerge(m) && Live(m, path, s, t) && s.code.Cons? && s.code.head != m.pred.inst
    requires Leads(Data(m.f, s.code.head).dests, d.block)
    requires forall v: Value :: UsedIn(m.f, d.args, v) ==> Uses(m.f, s.code.head, v)
    ensures Live(m, Cons(BlockStart(d.block), Cons(At(s.code.head), path)), Enter(m.f, s, trace, d),
                 Enter(Merged(m.f, m.pred, m.b), t, trace, d))
  {
    var i := s.code.head;
    var on := Cons(At(i), path);
    PathOn(m.f, path);
    BranchesElsewhere(m, path, i, d.block);
    ReadSame(m, path, i, s.env, t.env, d.args);
    TrackedPast(m, path, s.env, At(i));
    EnterSame(m, on, s, t, d, trace);
  }

  /** An instruction that does not branch. */
  lemma {:induction false} PlainStep(m: Merge, path: List<Node>, s: State, t: State, rs: List<Val>, trace: List<Event>)
    requires CanMerge(m) && Live(m, path, s, t) && s.code.Cons? && s.code.head != m.pred.inst
    requires Data(m.f, s.code.head).dests.Nil?
    ensures t.code == Cons(s.code.head, t.code.tail)
    ensures var results := Data(m.f, s.code.head).results;
            Live(m, Cons(At(s.code.head), path), State(s.code.tail, Bind(s.env, results, rs), trace),
                 State(t.code.tail, Bind(t.env, results, rs), trace))
  {
    var i := s.code.head;
    PathOn(m.f, path);
    CodeCons(m, i, s.code.tail);
    TrackedOn(m, path, s.env, At(i), rs);
    BindAgree(Params(m.f, m.b), s.env, t.env, Data(m.f, i).results, rs);
  }

  /** Any step but the jump into the block is a step after the merge too. */
  lemma OtherStep(m: Merge, sem: Meaning, path: List<Node>, s: State, t: State) returns (path': List<Node>)
    requires CanMerge(m) && Live(m, path, s, t) && s.code.Cons? && s.code.head != m.pred.inst
    ensures var g := Merged(m.f, m.pred, m.b);
            && Step(m.f, sem, s).Some? && Step(g, sem, t).Some?
            && Related(m, path', Step(m.f, sem, s).value, Step(g, sem, t).value)
  {
    var i, d := s.code.head, Data(m.f, s.code.head);
    CodeCons(m, i, s.code.tail);
    PathOn(m.f, path);
    ReadSame(m, path, i, s.env, t.env, d.args);
    var vals := Read(m.f, s.env, d.args);
    var trace := Cons(Event(i, vals), s.trace);
    path' := path;
    if IsJump(d) {
      BranchStep(m, path, s, t, d.dests.head, s.trace);
      path' := Cons(BlockStart(d.dests.head.block), Cons(At(i), path));
    } else if d.dests.Nil? {
      var rs := sem.run(d.op, vals, s.trace);
      if rs.Some? {
        PlainStep(m, path, s, t, rs.value, trace);
        path' := Cons(At(i), path);
      }
    } else {
      var k := sem.choose(d.op, vals, s.trace);
      if k < Length(d.dests) {
        NthLeads(m.f, d.dests, k);
        BranchStep(m, path, s, t, NthDest(d.dests, k), trace);
        path' := Cons(BlockStart(NthDest(d.dests, k).block), Cons(At(i), path));
      }
    }
  }

  // ----- Whole executions -----

  /** An execution of the function, and one after the merge, from the start of the entry block. */
  lemma {:induction false} StartRelated(m: Merge, env: map<Value, Val>)
    requires CanMerge(m)
    ensures var g := Merged(m.f, m.pred, m.b);
            && g.layout.Cons? && g.layout.head.id == m.f.layout.head.id
            && Live(m, Cons(BlockStart(m.f.layout.head.id), Nil), Start(m.f, env), Start(g, env))
  {
    JumpIsLast(m);
    CodeOfOthers(m, m.f.layout.head.id);
  }

  /** A state of one execution has its counterpart in the other, which is as far or one jump behind. */
  lemma {:induction false} RunForward(m: Merge, sem: Meaning, path: List<Node>, s: State, t: State, n: nat)
    returns (k: nat)
    requires CanMerge(m) && Harmless(m) && Related(m, path, s, t)
    ensures k <= n && Run(Merged(m.f, m.pred, m.b), sem, t, k).trace == Run(m.f, sem, s, n).trace
    decreases n
  {
    k := 0;
    if n != 0 && s.code.Cons? {
      var s' := Step(m.f, sem, s);
      if s.code.head == m.pred.inst {
        var path' := JumpStep(m, sem, path, s, t);
        k := RunForward(m, sem, path', s'.value, t, n - 1);
      } else {
        var path' := OtherStep(m, sem, path, s, t);
        k := RunForward(m, sem, path', s'.value, Step(Merged(m.f, m.pred, m.b), sem, t).value, n - 1);
        k := k + 1;
      }
    }
  }

  /** And the other way round: at most two steps for each. */
  lemma {:induction false} RunBackward(m: Merge, sem: Meaning, path: List<Node>, s: State, t: State, n: nat)
    returns (k: nat)
    requires CanMerge(m) && Harmless(m) && Related(m, path, s, t)
    ensures Run(m.f, sem, s, k).trace == Run(Merged(m.f, m.pred, m.b), sem, t, n).trace
    decreases n, if s.code.Cons? && s.code.head == m.pred.inst then 1 else 0
  {
    k := 0;
    if n != 0 && s.code.Cons? {
      var s' := Step(m.f, sem, s);
      if s.code.head == m.pred.inst {
        var path' := JumpStep(m, sem, path, s, t);
        BlockHasNoJump(m);
        k := RunBackward(m, sem, path', s'.value, t, n);
      } else {
        var path' := OtherStep(m, sem, path, s, t);
        k := RunBackward(m, sem, path', s'.value, Step(Merged(m.f, m.pred, m.b), sem, t).value, n - 1);
      }
      k := k + 1;
    }
  }

  lemma {:induction false} BlockHasNoJump(m: Merge)
    requires CanMerge(m)
    ensures !Has(InstsOf(m.f.layout, m.b), m.pred.inst)
    ensures Data(m.f, m.pred.inst).dests.head.block == m.b
  {
    JumpIsLast(m);
    OnlyInOther(m.f.layout, m.pred.block, m.b, m.pred.inst);
  }

  function After(m: Merge): Func
    requires Data(m.f, m.pred.inst).dests.Cons?
  {
    Merged(m.f, m.pred, m.b)
  }

  function TraceOf(f: Func, sem: Meaning, env: map<Value, Val>, n: nat): List<Event>
  {
    if f.layout.Nil? then Nil else Run(f, sem, Start(f, env), n).trace
  }

  /**
   Merging preserves every execution when it removes a jump, or what can never be executed: for any
   meaning of the instructions and any initial values, what happens in a function before the merge
   happens after it and the other way round, instruction by instruction and value by value.
   */
  lemma {:induction false} MergePreserves(m: Merge, sem: Meaning, env: map<Value, Val>, n: nat)
    returns (k: nat, k': nat)
    requires CanMerge(m) && Harmless(m)
    ensures After(m).layout.Cons?
    ensures k <= n && TraceOf(After(m), sem, env, k) == TraceOf(m.f, sem, env, n)
    ensures TraceOf(m.f, sem, env, k') == TraceOf(After(m), sem, env, n)
  {
    StartRelated(m, env);
    var path := Cons(BlockStart(m.f.layout.head.id), Nil);
    k := RunForward(m, sem, path, Start(m.f, env), Start(After(m), env), n);
    k' := RunBackward(m, sem, path, Start(m.f, env), Start(After(m), env), n);
  }

  // ----- A terminator that is not a jump -----

  /** The instructions that have been executed. */
  predicate Happened(trace: List<Event>, i: Inst) { trace.Cons? && (trace.head.inst == i || Happened(trace.tail, i)) }

  lemma {:induction false} RemovedIsAbsent(m: Merge, c: Block)
    requires CanMerge(m)
    ensures !Has(InstsOf(After(m).layout, c), m.pred.inst)
  {
    JumpIsLast(m);
    BlockHasNoJump(m);
    if c == m.b {
      AfterWithoutBlock(m);
    } else {
      CodeOfOthers(m, c);
      CodeWithout(m, InstsOf(m.f.layout, c));
    }
  }

  lemma {:induction false} AfterWithoutBlock(m: Merge)
    requires CanMerge(m)
    ensures InstsOf(After(m).layout, m.b) == Nil
  {
    JumpIsLast(m);
    BranchRemoved(m.f, m.pred);
    var l := RemoveInst(m.f.layout, m.pred.inst);
    RemovedBlockEmpty(l, m.b);
    SetInstsBlocks(RemoveBlock(l, m.b), m.pred.block, Append(InstsOf(l, m.pred.block), InstsOf(l, m.b)), m.b);
  }

  lemma {:induction false} RemovedBlockEmpty(layout: List<Blk>, b: Block)
    ensures InstsOf(RemoveBlock(layout, b), b) == Nil
  {
    if layout.Cons? { RemovedBlockEmpty(layout.tail, b); }
  }

  lemma {:induction false} CodeWithout(m: Merge, code: List<Inst>)
    requires !Has(InstsOf(m.f.layout, m.b), m.pred.inst)
    ensures !Has(Code(m, code), m.pred.inst)
  {
    WithoutIt(code, m.pred.inst);
    HasAppend(Without(code, m.pred.inst), InstsOf(m.f.layout, m.b), m.pred.inst);
  }

  lemma {:induction false} WithoutIt(insts: List<Inst>, i: Inst)
    ensures !Has(Without(insts, i), i)
  {
    if insts.Cons? { WithoutIt(insts.tail, i); }
  }

  /** After the merge, what was removed never happens. */
  lemma {:induction false} NeverAfter(m: Merge, sem: Meaning, s: State, n: nat)
    requires CanMerge(m) && !Has(s.code, m.pred.inst) && !Happened(s.trace, m.pred.inst)
    ensures !Happened(Run(After(m), sem, s, n).trace, m.pred.inst)
    decreases n
  {
    if n != 0 && s.code.Cons? {
      var s' := Step(After(m), sem, s).value;
      NeverStep(m, sem, s);
      NeverAfter(m, sem, s', n - 1);
    }
  }

  lemma {:induction false} NeverStep(m: Merge, sem: Meaning, s: State)
    requires CanMerge(m) && s.code.Cons? && !Has(s.code, m.pred.inst) && !Happened(s.trace, m.pred.inst)
    ensures Step(After(m), sem, s).Some?
    ensures var s' := Step(After(m), sem, s).value; !Has(s'.code, m.pred.inst) && !Happened(s'.trace, m.pred.inst)
  {
    var g, d := After(m), Data(After(m), s.code.head);
    if IsJump(d) {
      RemovedIsAbsent(m, d.dests.head.block);
    } else if d.dests.Cons? {
      var k := sem.choose(d.op, Read(g, s.env, d.args), s.trace);
      if k < Length(d.dests) { RemovedIsAbsent(m, NthDest(d.dests, k).block); }
    }
  }

  /** Before it, a terminator that can be reached happens in some execution. */
  lemma {:induction false} HappensBefore(m: Merge) returns (sem: Meaning, n: nat)
    requires CanMerge(m) && !Harmless(m)
    ensures Happened(TraceOf(m.f, sem, map[], n), m.pred.inst)
  {
    var path: List<Node> :| IsPath(m.f, path) && path.head == At(m.pred.inst);
    var picks;
    picks, n := Follow(m.f, path);
    sem := Guided(picks);
    RunOn(m.f, sem, Start(m.f, map[]), n);
    n := n + 1;
  }

  /** Every execution of the function is one after the merge, and every one after it was one before. */
  ghost predicate Preserved(m: Merge)
    requires Data(m.f, m.pred.inst).dests.Cons?
  {
    forall sem: Meaning, env: map<Value, Val>, n: nat :: Forward(m, sem, env, n) && Backward(m, sem, env, n)
  }

  ghost predicate Forward(m: Merge, sem: Meaning, env: map<Value, Val>, n: nat)
    requires Data(m.f, m.pred.inst).dests.Cons?
  {
    exists k: nat :: TraceOf(After(m), sem, env, k) == TraceOf(m.f, sem, env, n)
  }

  ghost predicate Backward(m: Merge, sem: Meaning, env: map<Value, Val>, n: nat)
    requires Data(m.f, m.pred.inst).dests.Cons?
  {
    exists k: nat :: TraceOf(m.f, sem, env, k) == TraceOf(After(m), sem, env, n)
  }

  /**
   For every block with a sole and different predecessor whose last instruction leads only to it:
   merging preserves every execution if and only if that instruction is a jump or cannot be reached.
   */
  lemma {:induction false} PreservedIff(m: Merge)
    requires CanMerge(m)
    ensures Preserved(m) <==> Harmless(m)
  {
    if Harmless(m) {
      forall sem: Meaning, env: map<Value, Val>, n: nat
        ensures Forward(m, sem, env, n) && Backward(m, sem, env, n)
      {
        var k, k' := MergePreserves(m, sem, env, n);
      }
    } else {
      var sem, n := HappensBefore(m);
      NotForward(m, sem, n);
      assert !Forward(m, sem, map[], n);
    }
  }

  lemma {:induction false} NotForward(m: Merge, sem: Meaning, n: nat)
    requires CanMerge(m) && Happened(TraceOf(m.f, sem, map[], n), m.pred.inst)
    ensures !Forward(m, sem, map[], n)
  {
    forall k: nat
      ensures !Happened(TraceOf(After(m), sem, map[], k), m.pred.inst)
    {
      if After(m).layout.Cons? {
        RemovedIsAbsent(m, After(m).layout.head.id);
        NeverAfter(m, sem, Start(After(m), map[]), k);
      }
    }
  }
}
