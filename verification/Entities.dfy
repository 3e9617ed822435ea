/** Removing unused entities: the tables are compacted and every recognised user is renumbered. */
module Entities {
  import opened Lists
  import opened Wrappers
  import opened Layouts
  import opened Ir

  /** The tables, in the order in which the mutator compacts them. */
  datatype Kind = Funcs | Signatures | Slots | Globals

  /** What refers to a table entry: an instruction, or for signatures also an external function. */
  datatype User = InstUser(inst: Inst) | FuncUser(func: nat)

  datatype Entry = FuncEntry(f: ExtFunc) | NumberEntry(n: nat) | GlobalEntry(g: Global)

  /** The reference that the usage scan recognises in an opcode. */
  function OpRef(kind: Kind, op: Op): Option<nat>
  {
    match (kind, op)
    case (Funcs, Call(r)) => Some(r)
    case (Funcs, FuncAddr(r)) => Some(r)
    case (Signatures, CallIndirect(s)) => Some(s)
    case (Slots, StackLoad(s)) => Some(s)
    case (Slots, StackStore(s)) => Some(s)
    case (Globals, GlobalValue(g)) => Some(g)
    case _ => None
  }

  function WithRef(op: Op, n: nat): Op
  {
    match op
    case Call(_) => Call(n)
    case FuncAddr(_) => FuncAddr(n)
    case CallIndirect(_) => CallIndirect(n)
    case StackLoad(_) => StackLoad(n)
    case StackStore(_) => StackStore(n)
    case GlobalValue(_) => GlobalValue(n)
    case _ => op
  }

  function Size(f: Func, kind: Kind): nat
  {
    match kind
    case Funcs => |f.extFuncs|
    case Signatures => |f.signatures|
    case Slots => |f.slots|
    case Globals => |f.globals|
  }

  function EntryAt(f: Func, kind: Kind, k: nat): Entry
    requires k < Size(f, kind)
  {
    match kind
    case Funcs => FuncEntry(f.extFuncs[k])
    case Signatures => NumberEntry(f.signatures[k])
    case Slots => NumberEntry(f.slots[k])
    case Globals => GlobalEntry(f.globals[k])
  }

  predicate IsUser(f: Func, kind: Kind, u: User)
  {
    match u
    case InstUser(i) => i in f.insts && OpRef(kind, f.insts[i].op).Some?
    case FuncUser(r) => kind == Signatures && r < |f.extFuncs|
  }

  function Ref(f: Func, kind: Kind, u: User): nat
    requires IsUser(f, kind, u)
  {
    match u
    case InstUser(i) => OpRef(kind, f.insts[i].op).value
    case FuncUser(r) => f.extFuncs[r].signature
  }

  function SetRef(f: Func, kind: Kind, u: User, n: nat): Func
    requires IsUser(f, kind, u)
  {
    match u
    case InstUser(i) => f.(insts := f.insts[i := f.insts[i].(op := WithRef(f.insts[i].op, n))])
    case FuncUser(r) => f.(extFuncs := f.extFuncs[r := f.extFuncs[r].(signature := n)])
  }

  // ----- The usage scan -----

  function InstUsers(f: Func, kind: Kind, l: List<Pos>): List<User>
  {
    if l.Nil? then Nil
    else if IsUser(f, kind, InstUser(l.head.inst)) then Cons(InstUser(l.head.inst), InstUsers(f, kind, l.tail))
    else InstUsers(f, kind, l.tail)
  }

  function FuncUsers(n: nat): List<User> { if n == 0 then Nil else Cons(FuncUser(n - 1), FuncUsers(n - 1)) }

  /** Every recognised user of a table, from the instructions in the layout and the external functions. */
  function Users(f: Func, kind: Kind): List<User>
  {
    Append(InstUsers(f, kind, Positions(f.layout)), if kind == Signatures then FuncUsers(|f.extFuncs|) else Nil)
  }

  predicate Among(users: List<User>, u: User) { users.Cons? && (users.head == u || Among(users.tail, u)) }

  predicate AllUsers(f: Func, kind: Kind, users: List<User>)
  {
    users.Cons? ==> IsUser(f, kind, users.head) && AllUsers(f, kind, users.tail)
  }

  lemma {:induction false} InstUsersAre(f: Func, kind: Kind, l: List<Pos>)
    ensures AllUsers(f, kind, InstUsers(f, kind, l))
  {
    if l.Cons? { InstUsersAre(f, kind, l.tail); }
  }

  lemma {:induction false} FuncUsersAre(f: Func, n: nat)
    requires n <= |f.extFuncs|
    ensures AllUsers(f, Signatures, FuncUsers(n))
    decreases n
  {
    if n != 0 { FuncUsersAre(f, n - 1); }
  }

  lemma {:induction false} InstUserAmong(f: Func, kind: Kind, l: List<Pos>, u: User)
    ensures Among(InstUsers(f, kind, l), u) <==> u.InstUser? && IsUser(f, kind, u) && !NoInst(l, u.inst)
  {
    if l.Cons? { InstUserAmong(f, kind, l.tail, u); }
  }

  lemma {:induction false} FuncUserAmong(n: nat, u: User)
    ensures Among(FuncUsers(n), u) <==> u.FuncUser? && u.func < n
    decreases n
  {
    if n != 0 { FuncUserAmong(n - 1, u); }
  }

  lemma {:induction false} AmongEither(a: List<User>, b: List<User>, u: User)
    ensures Among(Append(a, b), u) <==> Among(a, u) || Among(b, u)
    decreases a
  {
    if a.Cons? { AmongEither(a.tail, b, u); }
  }

  /** The scan finds every instruction in the layout that has a reference, and every external function's signature. */
  lemma {:induction false} UsersFound(f: Func, kind: Kind, u: User)
    ensures Among(Users(f, kind), u) <==> IsUser(f, kind, u) && (u.InstUser? ==> !NoInst(Positions(f.layout), u.inst))
  {
    InstUserAmong(f, kind, Positions(f.layout), u);
    FuncUserAmong(|f.extFuncs|, u);
    AmongEither(InstUsers(f, kind, Positions(f.layout)),
                if kind == Signatures then FuncUsers(|f.extFuncs|) else Nil, u);
  }

  lemma {:induction false} AppendUsers(f: Func, kind: Kind, a: List<User>, b: List<User>)
    requires AllUsers(f, kind, a) && AllUsers(f, kind, b)
    ensures AllUsers(f, kind, Append(a, b))
    decreases a
  {
    if a.Cons? { AppendUsers(f, kind, a.tail, b); }
  }

  lemma {:induction false} UsersAre(f: Func, kind: Kind)
    ensures AllUsers(f, kind, Users(f, kind))
  {
    InstUsersAre(f, kind, Positions(f.layout));
    FuncUsersAre(f, |f.extFuncs|);
    AppendUsers(f, kind, InstUsers(f, kind, Positions(f.layout)),
                if kind == Signatures then FuncUsers(|f.extFuncs|) else Nil);
  }

  lemma {:induction false} AmongIsUser(f: Func, kind: Kind, users: List<User>, u: User)
    requires AllUsers(f, kind, users) && Among(users, u)
    ensures IsUser(f, kind, u)
    decreases users
  {
    if users.head != u { AmongIsUser(f, kind, users.tail, u); }
  }

  /** Whether some user in the list refers to entry `k`. */
  predicate Used(f: Func, kind: Kind, users: List<User>, k: nat)
    requires AllUsers(f, kind, users)
  {
    users.Cons? && (Ref(f, kind, users.head) == k || Used(f, kind, users.tail, k))
  }

  lemma {:induction false} UsedBy(f: Func, kind: Kind, users: List<User>, u: User)
    requires AllUsers(f, kind, users) && Among(users, u)
    ensures IsUser(f, kind, u) && Used(f, kind, users, Ref(f, kind, u))
    decreases users
  {
    if users.head != u { UsedBy(f, kind, users.tail, u); }
  }

  lemma {:induction false} UsedHasUser(f: Func, kind: Kind, users: List<User>, k: nat) returns (u: User)
    requires AllUsers(f, kind, users) && Used(f, kind, users, k)
    ensures Among(users, u) && IsUser(f, kind, u) && Ref(f, kind, u) == k
    decreases users
  {
    if Ref(f, kind, users.head) == k { u := users.head; } else { u := UsedHasUser(f, kind, users.tail, k); }
  }

  // ----- The surviving entries -----

  /** The used entries below `n`, in order. */
  function Kept(f: Func, kind: Kind, users: List<User>, n: nat): seq<nat>
    requires AllUsers(f, kind, users)
    decreases n
  {
    if n == 0 then []
    else Kept(f, kind, users, n - 1) + if Used(f, kind, users, n - 1) then [n - 1] else []
  }

  /** The surviving entries are used ones, each once and in their old order. */
  lemma {:induction false} KeptSorted(f: Func, kind: Kind, users: List<User>, n: nat, j: nat)
    requires AllUsers(f, kind, users) && j < |Kept(f, kind, users, n)|
    ensures Kept(f, kind, users, n)[j] < n && Used(f, kind, users, Kept(f, kind, users, n)[j])
    ensures j > 0 ==> Kept(f, kind, users, n)[j - 1] < Kept(f, kind, users, n)[j]
    decreases n
  {
    var below := Kept(f, kind, users, n - 1);
    if j < |below| {
      KeptSorted(f, kind, users, n - 1, j);
    } else if j > 0 {
      KeptSorted(f, kind, users, n - 1, j - 1);
    }
  }

  /** A used entry survives, at the index that counts the used entries before it. */
  lemma {:induction false} KeptAt(f: Func, kind: Kind, users: List<User>, n: nat, k: nat)
    requires AllUsers(f, kind, users) && k < n && Used(f, kind, users, k)
    ensures |Kept(f, kind, users, k)| < |Kept(f, kind, users, n)|
    ensures Kept(f, kind, users, n)[|Kept(f, kind, users, k)|] == k
    decreases n
  {
    if k < n - 1 { KeptAt(f, kind, users, n - 1, k); }
  }

  // ----- Renumbering -----

  /** `g` is `f` up to the references of the users of this table. */
  ghost predicate SameButRefs(f: Func, g: Func, kind: Kind)
  {
    && g.(insts := f.insts, extFuncs := f.extFuncs) == f
    && g.insts.Keys == f.insts.Keys && (forall i :: i in f.insts ==> SameButRef(f.insts[i], g.insts[i], kind))
    && |g.extFuncs| == |f.extFuncs| && (forall r :: 0 <= r < |f.extFuncs| ==> g.extFuncs[r].name == f.extFuncs[r].name)
    && (kind != Signatures ==> g.extFuncs == f.extFuncs)
  }

  predicate SameButRef(d: InstData, d': InstData, kind: Kind)
  {
    && d'.(op := d.op) == d && WithRef(d'.op, 0) == WithRef(d.op, 0)
    && (OpRef(kind, d.op).None? ==> d' == d) && (OpRef(kind, d.op).Some? ==> OpRef(kind, d'.op).Some?)
  }

  lemma WithRefIs(kind: Kind, op: Op, n: nat)
    requires OpRef(kind, op).Some?
    ensures OpRef(kind, WithRef(op, n)) == Some(n) && WithRef(WithRef(op, n), 0) == WithRef(op, 0)
  {
  }

  lemma SetRefKeeps(f: Func, g: Func, kind: Kind, u: User, n: nat)
    requires SameButRefs(f, g, kind) && IsUser(f, kind, u)
    ensures IsUser(g, kind, u) && SameButRefs(f, SetRef(g, kind, u, n), kind)
  {
    if u.InstUser? {
      assert SameButRef(f.insts[u.inst], g.insts[u.inst], kind);
      WithRefIs(kind, g.insts[u.inst].op, n);
    }
  }

  lemma StillUser(f: Func, g: Func, kind: Kind, u: User)
    requires SameButRefs(f, g, kind) && IsUser(f, kind, u)
    ensures IsUser(g, kind, u)
  {
    if u.InstUser? { assert SameButRef(f.insts[u.inst], g.insts[u.inst], kind); }
  }

  lemma SetRefRefs(g: Func, kind: Kind, u: User, n: nat, v: User)
    requires IsUser(g, kind, u) && IsUser(g, kind, v)
    ensures IsUser(SetRef(g, kind, u, n), kind, v)
    ensures Ref(SetRef(g, kind, u, n), kind, v) == if u == v then n else Ref(g, kind, v)
  {
    if u.InstUser? { WithRefIs(kind, g.insts[u.inst].op, n); }
  }

  function OldRef(f: Func, kind: Kind, u: User): nat { if IsUser(f, kind, u) then Ref(f, kind, u) else 0 }

  /** The number of used entries before the one that `u` refers to. */
  function NewRef(f: Func, kind: Kind, users: List<User>, u: User): nat
    requires AllUsers(f, kind, users)
  {
    |Kept(f, kind, users, OldRef(f, kind, u))|
  }

  predicate RefIs(g: Func, kind: Kind, u: User, n: nat)
  {
    IsUser(g, kind, u) && Ref(g, kind, u) == n
  }

  /** While the users of entry `k` are visited: each has its new number or is still to come. */
  ghost predicate Renumbering(f: Func, g: Func, kind: Kind, users: List<User>, k: nat, rest: List<User>)
    requires AllUsers(f, kind, users)
  {
    forall u :: Among(users, u) ==>
      if OldRef(f, kind, u) < k then RefIs(g, kind, u, NewRef(f, kind, users, u))
      else if OldRef(f, kind, u) == k then
        RefIs(g, kind, u, NewRef(f, kind, users, u)) || (RefIs(g, kind, u, k) && Among(rest, u))
      else RefIs(g, kind, u, OldRef(f, kind, u))
  }

  lemma {:induction false} RenumberStep(f: Func, g: Func, kind: Kind, users: List<User>, k: nat, rest: List<User>)
    requires AllUsers(f, kind, users) && SameButRefs(f, g, kind) && rest.Cons? && Among(users, rest.head)
    requires Renumbering(f, g, kind, users, k, rest) && IsUser(f, kind, rest.head)
    ensures IsUser(g, kind, rest.head)
    ensures var g' := if Ref(f, kind, rest.head) == k then SetRef(g, kind, rest.head, |Kept(f, kind, users, k)|) else g;
            SameButRefs(f, g', kind) && Renumbering(f, g', kind, users, k, rest.tail)
  {
    var v := rest.head;
    SetRefKeeps(f, g, kind, v, |Kept(f, kind, users, k)|);
    if Ref(f, kind, v) == k {
      var g' := SetRef(g, kind, v, |Kept(f, kind, users, k)|);
      forall u | Among(users, u)
        ensures if OldRef(f, kind, u) < k then RefIs(g', kind, u, NewRef(f, kind, users, u))
                else if OldRef(f, kind, u) == k then
                  RefIs(g', kind, u, NewRef(f, kind, users, u)) || (RefIs(g', kind, u, k) && Among(rest.tail, u))
                else RefIs(g', kind, u, OldRef(f, kind, u))
      {
        AmongIsUser(f, kind, users, u);
        StillUser(f, g, kind, u);
        SetRefRefs(g, kind, v, |Kept(f, kind, users, k)|, u);
      }
    }
  }

  predicate Indices(kept: seq<nat>, n: nat) { forall j :: 0 <= j < |kept| ==> kept[j] < n }

  function Select<T>(table: seq<T>, kept: seq<nat>): (r: seq<T>)
    requires Indices(kept, |table|)
    ensures |r| == |kept| && forall j :: 0 <= j < |kept| ==> r[j] == table[kept[j]]
  {
    seq(|kept|, j requires 0 <= j < |kept| => table[kept[j]])
  }

  /** Replace a table by the entries of the old one that are kept. */
  function WithTable(f: Func, kind: Kind, kept: seq<nat>): (g: Func)
    requires Indices(kept, Size(f, kind))
    ensures Size(g, kind) == |kept| && forall j :: 0 <= j < |kept| ==> EntryAt(g, kind, j) == EntryAt(f, kind, kept[j])
    ensures g.insts == f.insts && g.layout == f.layout && g.freshInst == f.freshInst
    ensures kind != Funcs ==> g.extFuncs == f.extFuncs
  {
    match kind
    case Funcs => f.(extFuncs := Select(f.extFuncs, kept))
    case Signatures => f.(signatures := Select(f.signatures, kept))
    case Slots => f.(slots := Select(f.slots, kept))
    case Globals => f.(globals := Select(f.globals, kept))
  }

  /** What compaction has to achieve: `g` is `f` with only the used entries, and users that follow them. */
  ghost predicate Compacted(f: Func, g: Func, kind: Kind)
  {
    var users := Users(f, kind);
    UsersAre(f, kind);
    var kept := Kept(f, kind, users, Size(f, kind));
    && (forall u :: Among(users, u) && OldRef(f, kind, u) < Size(f, kind) ==>
          RefIs(g, kind, u, NewRef(f, kind, users, u)))
    && Size(g, kind) == |kept|
    && Indices(kept, Size(f, kind))
    && (forall j :: 0 <= j < |kept| ==> EntryAt(g, kind, j) == EntryAt(f, kind, kept[j]))
  }

  lemma {:induction false} UnusedEntry(f: Func, g: Func, kind: Kind, users: List<User>, k: nat)
    requires AllUsers(f, kind, users) && Renumbering(f, g, kind, users, k, users) && !Used(f, kind, users, k)
    ensures Renumbering(f, g, kind, users, k, Nil)
  {
    forall u | Among(users, u)
      ensures OldRef(f, kind, u) != k
    {
      UsedBy(f, kind, users, u);
    }
  }

  lemma {:induction false} NextEntry(f: Func, g: Func, kind: Kind, users: List<User>, k: nat)
    requires AllUsers(f, kind, users) && Renumbering(f, g, kind, users, k, Nil)
    ensures Renumbering(f, g, kind, users, k + 1, users)
  {
  }

  /** Give every user of entry `k` its new number. */
  method RenumberUsers(f: Func, g0: Func, kind: Kind, users: List<User>, k: nat) returns (g: Func)
    requires AllUsers(f, kind, users) && SameButRefs(f, g0, kind) && Renumbering(f, g0, kind, users, k, users)
    ensures SameButRefs(f, g, kind) && Renumbering(f, g, kind, users, k, Nil)
  {
    g := g0;
    AllAmongSelf(users, users);
    var rest, n := users, |Kept(f, kind, users, k)|;
    while rest.Cons?
      invariant SameButRefs(f, g, kind) && Renumbering(f, g, kind, users, k, rest)
      invariant AllUsers(f, kind, rest) && AllAmong(users, rest)
      decreases rest
    {
      RenumberStep(f, g, kind, users, k, rest);
      if Ref(f, kind, rest.head) == k { g := SetRef(g, kind, rest.head, n); }
      rest := rest.tail;
    }
  }

  predicate AllAmong(users: List<User>, rest: List<User>)
  {
    rest.Cons? ==> Among(users, rest.head) && AllAmong(users, rest.tail)
  }

  lemma {:induction false} AllAmongSelf(users: List<User>, rest: List<User>)
    requires forall u :: Among(rest, u) ==> Among(users, u)
    ensures AllAmong(users, rest)
    decreases rest
  {
    if rest.Cons? {
      assert Among(rest, rest.head);
      forall u | Among(rest.tail, u)
        ensures Among(users, u)
      {
        assert Among(rest, u);
      }
      AllAmongSelf(users, rest.tail);
    }
  }

  /** The users of entry `k` are renumbered, and the entry is kept, when it has any. */
  method CompactEntry(f: Func, g0: Func, kept0: seq<nat>, kind: Kind, users: List<User>, k: nat)
    returns (g: Func, kept: seq<nat>)
    requires AllUsers(f, kind, users) && SameButRefs(f, g0, kind) && Renumbering(f, g0, kind, users, k, users)
    requires kept0 == Kept(f, kind, users, k)
    ensures SameButRefs(f, g, kind) && Renumbering(f, g, kind, users, k + 1, users)
    ensures kept == Kept(f, kind, users, k + 1)
  {
    g, kept := g0, kept0;
    if Used(f, kind, users, k) {
      g := RenumberUsers(f, g, kind, users, k);
      kept := kept + [k];
    } else {
      UnusedEntry(f, g, kind, users, k);
    }
    NextEntry(f, g, kind, users, k);
  }

  lemma SameTable(f: Func, g: Func, kind: Kind)
    requires SameButRefs(f, g, kind)
    ensures Size(g, kind) == Size(f, kind)
    ensures forall k :: 0 <= k < Size(f, kind) ==> EntryAt(g, kind, k) == EntryAt(f, kind, k)
  {
  }

  lemma {:induction false} KeptIndices(f: Func, kind: Kind, users: List<User>, n: nat)
    requires AllUsers(f, kind, users)
    ensures Indices(Kept(f, kind, users, n), n)
  {
    forall j: nat | j < |Kept(f, kind, users, n)|
      ensures Kept(f, kind, users, n)[j] < n
    {
      KeptSorted(f, kind, users, n, j);
    }
  }

  lemma TableKeepsRefs(g: Func, kind: Kind, kept: seq<nat>, u: User, n: nat)
    requires Indices(kept, Size(g, kind)) && RefIs(g, kind, u, n)
    ensures RefIs(WithTable(g, kind, kept), kind, u, n)
  {
  }

  lemma {:induction false} CompactedNow(f: Func, g: Func, kind: Kind, users: List<User>, kept: seq<nat>)
    requires users == Users(f, kind) && AllUsers(f, kind, users) && kept == Kept(f, kind, users, Size(f, kind))
    requires SameButRefs(f, g, kind) && Renumbering(f, g, kind, users, Size(f, kind), users)
    ensures Indices(kept, Size(g, kind)) && Compacted(f, WithTable(g, kind, kept), kind)
  {
    KeptIndices(f, kind, users, Size(f, kind));
    SameTable(f, g, kind);
    forall u | Among(users, u) && OldRef(f, kind, u) < Size(f, kind)
      ensures RefIs(WithTable(g, kind, kept), kind, u, NewRef(f, kind, users, u))
    {
      TableKeepsRefs(g, kind, kept, u, NewRef(f, kind, users, u));
    }
  }

  /** Renumber all users of the entries that have any, and list those entries. */
  method CompactEntries(f: Func, kind: Kind, users: List<User>) returns (g: Func, kept: seq<nat>)
    requires AllUsers(f, kind, users)
    ensures SameButRefs(f, g, kind) && Renumbering(f, g, kind, users, Size(f, kind), users)
    ensures kept == Kept(f, kind, users, Size(f, kind))
  {
    g, kept := f, [];
    Unchanged(f, kind, users);
    for k := 0 to Size(f, kind)
      invariant kept == Kept(f, kind, users, k)
      invariant SameButRefs(f, g, kind) && Renumbering(f, g, kind, users, k, users)
    {
      g, kept := CompactEntry(f, g, kept, kind, users, k);
    }
  }

  /** `g` with the table that `f` has. */
  function OldTable(f: Func, g: Func, kind: Kind): Func
  {
    match kind
    case Funcs => g.(extFuncs := f.extFuncs)
    case Signatures => g.(signatures := f.signatures)
    case Slots => g.(slots := f.slots)
    case Globals => g.(globals := f.globals)
  }

  /** `mutate` of `RemoveUnusedEntities`, for one table. */
  method RemoveUnused(f: Func, kind: Kind) returns (g: Func)
    ensures Compacted(f, g, kind) && SameButRefs(f, OldTable(f, g, kind), kind)
    ensures g.layout == f.layout && g.freshInst == f.freshInst
  {
    var users := Users(f, kind);
    UsersAre(f, kind);
    var kept: seq<nat>;
    g, kept := CompactEntries(f, kind, users);
    CompactedNow(f, g, kind, users, kept);
    TableApart(f, g, kind, kept);
    g := WithTable(g, kind, kept);
  }

  lemma TableApart(f: Func, g: Func, kind: Kind, kept: seq<nat>)
    requires SameButRefs(f, g, kind) && Indices(kept, Size(g, kind))
    ensures OldTable(f, WithTable(g, kind, kept), kind) == g
  {
  }

  lemma {:induction false} Unchanged(f: Func, kind: Kind, users: List<User>)
    requires AllUsers(f, kind, users)
    ensures SameButRefs(f, f, kind) && Renumbering(f, f, kind, users, 0, users)
  {
    forall u | Among(users, u)
      ensures RefIs(f, kind, u, OldRef(f, kind, u))
    {
      AmongIsUser(f, kind, users, u);
    }
  }

  // ----- What compaction means for users -----

  /** Every user that the scan recognises still refers to the same data. */
  lemma {:induction false} UsersResolveSame(f: Func, g: Func, kind: Kind, u: User)
    requires Compacted(f, g, kind) && Among(Users(f, kind), u)
    ensures IsUser(f, kind, u)
    ensures Ref(f, kind, u) < Size(f, kind) ==>
              && IsUser(g, kind, u) && Ref(g, kind, u) < Size(g, kind)
              && EntryAt(g, kind, Ref(g, kind, u)) == EntryAt(f, kind, Ref(f, kind, u))
  {
    var users := Users(f, kind);
    UsersAre(f, kind);
    UsedBy(f, kind, users, u);
    if Ref(f, kind, u) < Size(f, kind) {
      KeptAt(f, kind, users, Size(f, kind), Ref(f, kind, u));
    }
  }

  /** Nothing unused remains: every surviving entry has a recognised user. */
  lemma SurvivorsAreUsed(f: Func, g: Func, kind: Kind, j: nat) returns (u: User)
    requires Compacted(f, g, kind) && j < Size(g, kind)
    ensures Among(Users(f, kind), u) && IsUser(f, kind, u) && Ref(f, kind, u) < Size(f, kind)
    ensures IsUser(g, kind, u) && Ref(g, kind, u) == j
  {
    var users := Users(f, kind);
    UsersAre(f, kind);
    var k := Kept(f, kind, users, Size(f, kind))[j];
    KeptSorted(f, kind, users, Size(f, kind), j);
    u := UsedHasUser(f, kind, users, k);
    KeptAt(f, kind, users, Size(f, kind), k);
    KeptOnce(f, kind, users, Size(f, kind), j, |Kept(f, kind, users, k)|);
  }

  /** An entry occurs only once among the survivors. */
  lemma {:induction false} KeptOnce(f: Func, kind: Kind, users: List<User>, n: nat, i: nat, j: nat)
    requires AllUsers(f, kind, users) && i < |Kept(f, kind, users, n)| && j < |Kept(f, kind, users, n)|
    requires Kept(f, kind, users, n)[i] == Kept(f, kind, users, n)[j]
    ensures i == j
    decreases n
  {
    var below := Kept(f, kind, users, n - 1);
    if i < |below| && j < |below| {
      KeptOnce(f, kind, users, n - 1, i, j);
    } else if i < |below| {
      KeptSorted(f, kind, users, n - 1, i);
    } else if j < |below| {
      KeptSorted(f, kind, users, n - 1, j);
    }
  }

  /** The survivors are in their old order. */
  lemma {:induction false} SurvivorsInOrder(f: Func, kind: Kind, users: List<User>, n: nat, i: nat, j: nat)
    requires AllUsers(f, kind, users) && i < j < |Kept(f, kind, users, n)|
    ensures Kept(f, kind, users, n)[i] < Kept(f, kind, users, n)[j]
    decreases j
  {
    KeptSorted(f, kind, users, n, j);
    if i < j - 1 { SurvivorsInOrder(f, kind, users, n, i, j - 1); }
  }

  // ----- Users that the scan does not recognise -----

  predicate AllUsed(f: Func, kind: Kind, users: List<User>, n: nat)
    requires AllUsers(f, kind, users)
    decreases n
  {
    n == 0 || (Used(f, kind, users, n - 1) && AllUsed(f, kind, users, n - 1))
  }

  lemma {:induction false} KeptLength(f: Func, kind: Kind, users: List<User>, n: nat)
    requires AllUsers(f, kind, users)
    ensures |Kept(f, kind, users, n)| <= n && (|Kept(f, kind, users, n)| == n <==> AllUsed(f, kind, users, n))
    decreases n
  {
    if n != 0 { KeptLength(f, kind, users, n - 1); }
  }

  /** Where a reference stands that the usage scan does not look at. */
  datatype Holder = InInst(inst: Inst) | StackLimit

  /**
   The references that the usage scan does not recognise. A direct `try_call` has two: its function,
   and the signature in its exception table.
   */
  function HiddenIn(kind: Kind, op: Op): Option<nat>
  {
    match (kind, op)
    case (Funcs, TryCall(r, _)) => Some(r)
    case (Signatures, TryCall(_, s)) => Some(s)
    case (Signatures, TryCallIndirect(s)) => Some(s)
    case _ => None
  }

  function HiddenRef(f: Func, kind: Kind, h: Holder): Option<nat>
  {
    match h
    case InInst(i) => if i in f.insts then HiddenIn(kind, f.insts[i].op) else None
    case StackLimit => if kind == Globals then f.stackLimit else None
  }

  /** The entity numbers among the operands of an opcode. */
  predicate Refers(op: Op, kind: Kind, r: nat)
  {
    || (kind == Funcs && (op.Call? || op.FuncAddr? || op.TryCall?) && r == op.func)
    || (kind == Signatures && (op.CallIndirect? || op.TryCallIndirect? || op.TryCall?) && r == op.sig)
    || (kind == Slots && (op.StackLoad? || op.StackStore?) && r == op.slot)
    || (kind == Globals && op.GlobalValue? && r == op.gv)
  }

  /** Every one of them is recognised, except in the two forms of `try_call`. */
  lemma EveryReference(op: Op, kind: Kind, r: nat)
    ensures OpRef(kind, op) == Some(r) <==> Refers(op, kind, r) && !op.TryCall? && !op.TryCallIndirect?
    ensures HiddenIn(kind, op) == Some(r) <==> Refers(op, kind, r) && (op.TryCall? || op.TryCallIndirect?)
  {
  }

  /** The entry of the old table that compaction leaves at index `j`. */
  function OldIndex(f: Func, kind: Kind, j: nat): Option<nat>
  {
    UsersAre(f, kind);
    var kept := Kept(f, kind, Users(f, kind), Size(f, kind));
    if j < |kept| then Some(kept[j]) else None
  }

  lemma {:induction false} OldIndexSame(f: Func, kind: Kind, r: nat)
    requires r < Size(f, kind)
    ensures AllUsers(f, kind, Users(f, kind))
    ensures OldIndex(f, kind, r) == Some(r) <==> AllUsed(f, kind, Users(f, kind), r + 1)
  {
    var users := Users(f, kind);
    UsersAre(f, kind);
    KeptLength(f, kind, users, r);
    KeptLength(f, kind, users, r + 1);
    var kept := Kept(f, kind, users, Size(f, kind));
    if Used(f, kind, users, r) {
      KeptAt(f, kind, users, Size(f, kind), r);
      if r < |kept| && kept[r] == r { KeptOnce(f, kind, users, Size(f, kind), r, |Kept(f, kind, users, r)|); }
    } else if r < |kept| {
      KeptSorted(f, kind, users, Size(f, kind), r);
    }
  }

  ghost predicate DistinctEntries(f: Func, kind: Kind)
  {
    forall j: nat, k: nat :: j < k < Size(f, kind) ==> EntryAt(f, kind, j) != EntryAt(f, kind, k)
  }

  /** What compaction leaves at an index is the old entry of `OldIndex`. */
  lemma {:induction false} CompactedEntry(f: Func, g: Func, kind: Kind, j: nat)
    requires Compacted(f, g, kind)
    ensures j < Size(g, kind) <==> OldIndex(f, kind, j).Some?
    ensures j < Size(g, kind) ==>
              var k := OldIndex(f, kind, j).value; k < Size(f, kind) && EntryAt(g, kind, j) == EntryAt(f, kind, k)
  {
  }

  /**
   A reference that the scan does not recognise, in a `try_call` or as the stack limit, is left as it
   is, and so is the rest of the instruction. It is still the index of its entry exactly when every
   entry up to that one has a recognised user; and when no two entries are alike, exactly then it
   still finds the same data.
   */
  lemma {:induction false} UnrecognisedRef(f: Func, g: Func, kind: Kind, h: Holder, r: nat)
    requires Compacted(f, g, kind) && SameButRefs(f, OldTable(f, g, kind), kind)
    requires HiddenRef(f, kind, h) == Some(r) && r < Size(f, kind)
    ensures HiddenRef(g, kind, h) == Some(r) && AllUsers(f, kind, Users(f, kind))
    ensures h.InInst? ==> h.inst in f.insts && h.inst in g.insts && g.insts[h.inst] == f.insts[h.inst]
    ensures OldIndex(f, kind, r) == Some(r) <==> AllUsed(f, kind, Users(f, kind), r + 1)
    ensures DistinctEntries(f, kind) ==>
              (r < Size(g, kind) && EntryAt(g, kind, r) == EntryAt(f, kind, r) <==>
               AllUsed(f, kind, Users(f, kind), r + 1))
  {
    OldIndexSame(f, kind, r);
    CompactedEntry(f, g, kind, r);
    if h.InInst? { Unrecognised(f, g, kind, h.inst); }
  }

  lemma {:induction false} Unrecognised(f: Func, g: Func, kind: Kind, i: Inst)
    requires SameButRefs(f, OldTable(f, g, kind), kind) && i in f.insts && OpRef(kind, f.insts[i].op).None?
    ensures i in g.insts && g.insts[i] == f.insts[i]
  {
    var h := OldTable(f, g, kind);
    assert i in h.insts && SameButRef(f.insts[i], h.insts[i], kind);
  }
}
