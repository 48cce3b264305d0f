/** The state of DescriptorPool::Tables as a value, and nested transactions on it. */
module TableState {
  import opened Sequences

  /** DescriptorIntPair: an extended type and a field number. */
  type ExtensionKey = (nat, int)

  datatype CheckPoint = CheckPoint(
    strings: nat, messages: nat, onceDynamics: nat, fileTables: nat, allocations: nat,
    symbols: nat, files: nat, extensions: nat)

  /** Which vector of owned objects; AllocateBytes is asked for a number of bytes. */
  datatype Kind = String | Message | OnceDynamic | FileTable | Allocation(size: nat)

  datatype State = State(
    symbolsByName: map<string, nat>, filesByName: map<string, nat>, extensions: map<ExtensionKey, nat>,
    symbolsAfter: seq<string>, filesAfter: seq<string>, extensionsAfter: seq<ExtensionKey>,
    strings: seq<nat>, messages: seq<nat>, onceDynamics: seq<nat>, fileTables: seq<nat>, allocations: seq<nat>,
    checkpoints: seq<CheckPoint>)

  const EMPTY := State(map[], map[], map[], [], [], [], [], [], [], [], [], [])

  function Keys<K>(log: seq<K>): set<K> { set k | k in log }

  /** The current lengths, as the constructor of CheckPoint takes them. */
  function Here(s: State): CheckPoint {
    CheckPoint(|s.strings|, |s.messages|, |s.onceDynamics|, |s.fileTables|, |s.allocations|,
               |s.symbolsAfter|, |s.filesAfter|, |s.extensionsAfter|)
  }

  predicate Fits(c: CheckPoint, s: State) {
    && c.strings <= |s.strings| && c.messages <= |s.messages| && c.onceDynamics <= |s.onceDynamics|
    && c.fileTables <= |s.fileTables| && c.allocations <= |s.allocations|
    && c.symbols <= |s.symbolsAfter| && c.files <= |s.filesAfter| && c.extensions <= |s.extensionsAfter|
  }

  function AddCheckpoint(s: State): State { s.(checkpoints := s.checkpoints + [Here(s)]) }

  /** ClearLastCheckpoint: when none is left, all pending data is committed. */
  function Clear(s: State): State
    requires s.checkpoints != []
  {
    var t := s.(checkpoints := s.checkpoints[..|s.checkpoints| - 1]);
    if t.checkpoints == [] then t.(symbolsAfter := [], filesAfter := [], extensionsAfter := []) else t
  }

  /** s with everything after checkpoint c taken back. */
  function BackTo(s: State, c: CheckPoint): State
    requires Fits(c, s)
  {
    s.(symbolsByName := s.symbolsByName - Keys(s.symbolsAfter[c.symbols..]),
       filesByName := s.filesByName - Keys(s.filesAfter[c.files..]),
       extensions := s.extensions - Keys(s.extensionsAfter[c.extensions..]),
       symbolsAfter := s.symbolsAfter[..c.symbols],
       filesAfter := s.filesAfter[..c.files],
       extensionsAfter := s.extensionsAfter[..c.extensions],
       strings := s.strings[..c.strings],
       messages := s.messages[..c.messages],
       onceDynamics := s.onceDynamics[..c.onceDynamics],
       fileTables := s.fileTables[..c.fileTables],
       allocations := s.allocations[..c.allocations])
  }

  /** RollbackToLastCheckpoint. */
  function Rollback(s: State): State
    requires s.checkpoints != [] && Fits(s.checkpoints[|s.checkpoints| - 1], s)
  {
    BackTo(s, s.checkpoints[|s.checkpoints| - 1]).(checkpoints := s.checkpoints[..|s.checkpoints| - 1])
  }

  function AddSymbol(s: State, name: string, symbol: nat): (r: State)
    ensures r.checkpoints == s.checkpoints && Fits(Here(s), r)
  {
    if name in s.symbolsByName then s
    else s.(symbolsByName := s.symbolsByName[name := symbol], symbolsAfter := s.symbolsAfter + [name])
  }

  function AddFile(s: State, name: string, file: nat): (r: State)
    ensures r.checkpoints == s.checkpoints && Fits(Here(s), r)
  {
    if name in s.filesByName then s
    else s.(filesByName := s.filesByName[name := file], filesAfter := s.filesAfter + [name])
  }

  function AddExtension(s: State, key: ExtensionKey, field: nat): (r: State)
    ensures r.checkpoints == s.checkpoints && Fits(Here(s), r)
  {
    if key in s.extensions then s
    else s.(extensions := s.extensions[key := field], extensionsAfter := s.extensionsAfter + [key])
  }

  function Own(s: State, kind: Kind, obj: nat): (r: State)
    ensures r.checkpoints == s.checkpoints && Fits(Here(s), r)
  {
    match kind
    case String => s.(strings := s.strings + [obj])
    case Message => s.(messages := s.messages + [obj])
    case OnceDynamic => s.(onceDynamics := s.onceDynamics + [obj])
    case FileTable => s.(fileTables := s.fileTables + [obj])
    case Allocation(size) => if size == 0 then s else s.(allocations := s.allocations + [obj])
  }

  /** What happens between two checkpoint calls: insertions, allocations, and whole inner
      transactions. A transaction is what DescriptorBuilder::BuildFile does around
      BuildFileImpl: a checkpoint, the body, then commit or abort. */
  datatype Op =
    | Symbol(name: string, symbol: nat)
    | File(name: string, file: nat)
    | Extension(key: ExtensionKey, field: nat)
    | Allocate(kind: Kind, obj: nat)
    | Transaction(body: seq<Op>, success: bool)

  /** s is what base has become above its checkpoint c: taking everything after c back gives the
      tables of base. */
  ghost predicate Above(base: State, c: CheckPoint, s: State) {
    && c == Here(base) && Fits(c, s)
    && BackTo(s, c).(checkpoints := base.checkpoints) == base
  }

  lemma BeginAbove(base: State)
    ensures Above(base, Here(base), AddCheckpoint(base))
  {
    assert base.symbolsByName - {} == base.symbolsByName;
  }

  /** Taking back a map entry that was just inserted and logged. */
  lemma TakeBack<K, V>(m: map<K, V>, log: seq<K>, k: K, v: V, n: nat)
    requires n <= |log| && k !in m
    ensures m[k := v] - Keys((log + [k])[n..]) == m - Keys(log[n..]) && (log + [k])[..n] == log[..n]
  {
    assert (log + [k])[n..] == log[n..] + [k];
    assert Keys(log[n..] + [k]) == Keys(log[n..]) + {k};
  }

  lemma SymbolAbove(base: State, c: CheckPoint, s: State, name: string, symbol: nat)
    requires Above(base, c, s)
    ensures Above(base, c, AddSymbol(s, name, symbol))
  {
    if name !in s.symbolsByName {
      TakeBack(s.symbolsByName, s.symbolsAfter, name, symbol, c.symbols);
    }
  }

  lemma FileAbove(base: State, c: CheckPoint, s: State, name: string, file: nat)
    requires Above(base, c, s)
    ensures Above(base, c, AddFile(s, name, file))
  {
    if name !in s.filesByName {
      TakeBack(s.filesByName, s.filesAfter, name, file, c.files);
    }
  }

  lemma ExtensionAbove(base: State, c: CheckPoint, s: State, key: ExtensionKey, field: nat)
    requires Above(base, c, s)
    ensures Above(base, c, AddExtension(s, key, field))
  {
    if key !in s.extensions {
      TakeBack(s.extensions, s.extensionsAfter, key, field, c.extensions);
    }
  }

  lemma OwnAbove(base: State, c: CheckPoint, s: State, kind: Kind, obj: nat)
    requires Above(base, c, s)
    ensures Above(base, c, Own(s, kind, obj))
  {
  }

  // ---------- nested transactions ----------

  ghost function Exec(s: State, op: Op): (r: State)
    ensures r.checkpoints == s.checkpoints
    ensures s.checkpoints != [] ==> Fits(Here(s), r)
    decreases op, 1
  {
    match op
    case Symbol(name, symbol) => AddSymbol(s, name, symbol)
    case File(name, file) => AddFile(s, name, file)
    case Extension(key, field) => AddExtension(s, key, field)
    case Allocate(kind, obj) => Own(s, kind, obj)
    case Transaction(body, success) =>
      Close(ExecAll(AddCheckpoint(s), body), success)
  }

  /** The end of a transaction. */
  ghost function Close(t: State, success: bool): (r: State)
    requires t.checkpoints != [] && Fits(t.checkpoints[|t.checkpoints| - 1], t)
    ensures r.checkpoints == t.checkpoints[..|t.checkpoints| - 1]
    ensures r.checkpoints != [] ==> Fits(t.checkpoints[|t.checkpoints| - 1], r)
  {
    if success then Clear(t) else Rollback(t)
  }

  ghost function ExecAll(s: State, ops: seq<Op>): (r: State)
    ensures r.checkpoints == s.checkpoints
    ensures s.checkpoints != [] ==> Fits(Here(s), r)
    decreases ops, 0
  {
    if ops == [] then s else ExecAll(Exec(s, ops[0]), ops[1..])
  }

  /** Inside a transaction, nothing that happens reaches below its checkpoint, inner transactions
      that have been committed included. */
  lemma {:induction false} ExecAbove(base: State, c: CheckPoint, s: State, op: Op)
    requires Above(base, c, s) && s.checkpoints != []
    ensures Above(base, c, Exec(s, op))
    decreases op, 1
  {
    match op
    case Symbol(name, symbol) => SymbolAbove(base, c, s, name, symbol);
    case File(name, file) => FileAbove(base, c, s, name, file);
    case Extension(key, field) => ExtensionAbove(base, c, s, key, field);
    case Allocate(kind, obj) => OwnAbove(base, c, s, kind, obj);
    case Transaction(body, success) =>
      if success {
        ExecAllAbove(base, c, AddCheckpoint(s), body);
        CommitAbove(base, c, s, ExecAll(AddCheckpoint(s), body));
      } else {
        BeginAbove(s);
        ExecAllAbove(s, Here(s), AddCheckpoint(s), body);
        AbortRestores(s, body);
      }
  }

  lemma CommitAbove(base: State, c: CheckPoint, s: State, t: State)
    requires Above(base, c, t) && s.checkpoints != [] && t.checkpoints == s.checkpoints + [Here(s)]
    ensures Above(base, c, Clear(t))
  {
  }

  lemma {:induction false} ExecAllAbove(base: State, c: CheckPoint, s: State, ops: seq<Op>)
    requires Above(base, c, s) && s.checkpoints != []
    ensures Above(base, c, ExecAll(s, ops))
    decreases ops, 0
  {
    if ops != [] {
      ExecAbove(base, c, s, ops[0]);
      ExecAllAbove(base, c, Exec(s, ops[0]), ops[1..]);
    }
  }

  lemma AbortRestores(s: State, body: seq<Op>)
    requires Above(s, Here(s), ExecAll(AddCheckpoint(s), body))
    ensures Exec(s, Transaction(body, false)) == s
  {
    var t := ExecAll(AddCheckpoint(s), body);
    assert t.checkpoints == s.checkpoints + [Here(s)];
    assert t.checkpoints[..|t.checkpoints| - 1] == s.checkpoints;
  }

  /** A transaction that fails leaves no trace: maps, undo logs, owned objects and checkpoints
      are what they were, whatever was inserted and whatever inner transactions were committed or
      aborted inside it. */
  lemma FailedTransactionLeavesNoTrace(s: State, body: seq<Op>)
    ensures Exec(s, Transaction(body, false)) == s
  {
    BeginAbove(s);
    ExecAllAbove(s, Here(s), AddCheckpoint(s), body);
    AbortRestores(s, body);
  }

  /** The insertions and allocations of a body that survive it: those of failed inner
      transactions do not. */
  ghost function Surviving(ops: seq<Op>): seq<Op>
    decreases ops, 0
  {
    if ops == [] then [] else SurvivingOne(ops[0]) + Surviving(ops[1..])
  }

  ghost function SurvivingOne(op: Op): seq<Op>
    decreases op, 1
  {
    match op
    case Transaction(body, success) => if success then Surviving(body) else []
    case _ => [op]
  }

  /** The tables without their bookkeeping. */
  function Tables(s: State): State { s.(symbolsAfter := [], filesAfter := [], extensionsAfter := [], checkpoints := []) }

  /** Nesting does not matter to the result: the tables are as if just the surviving operations
      had been carried out, one after another, with no transactions at all. */
  lemma {:induction false} NestingIsTransparent(s: State, t: State, ops: seq<Op>)
    requires Tables(s) == Tables(t)
    ensures Tables(ExecAll(s, ops)) == Tables(ExecAll(t, Surviving(ops)))
    decreases ops, 0
  {
    if ops != [] {
      var first, rest := SurvivingOne(ops[0]), Surviving(ops[1..]);
      OneIsTransparent(s, t, ops[0]);
      NestingIsTransparent(Exec(s, ops[0]), ExecAll(t, first), ops[1..]);
      ExecAllJoin(t, first, rest);
    }
  }

  lemma {:induction false} OneIsTransparent(s: State, t: State, op: Op)
    requires Tables(s) == Tables(t)
    ensures Tables(Exec(s, op)) == Tables(ExecAll(t, SurvivingOne(op)))
    decreases op, 1
  {
    match op
    case Transaction(body, success) =>
      if success {
        NestingIsTransparent(AddCheckpoint(s), t, body);
      } else {
        FailedTransactionLeavesNoTrace(s, body);
      }
    case _ =>
      SimpleIsTransparent(s, t, op);
  }

  lemma SimpleIsTransparent(s: State, t: State, op: Op)
    requires Tables(s) == Tables(t) && !op.Transaction?
    ensures Tables(Exec(s, op)) == Tables(ExecAll(t, [op]))
  {
    assert [op][1..] == [];
    assert ExecAll(t, [op]) == Exec(t, op);
    match op
    case Symbol(name, symbol) => InsertsAlike(s, t, name, symbol);
    case File(name, file) => InsertsAlike(s, t, name, file);
    case Extension(key, field) => ExtendsAlike(s, t, key, field);
    case Allocate(kind, obj) => OwnsAlike(s, t, kind, obj);
  }

  lemma InsertsAlike(s: State, t: State, name: string, value: nat)
    requires Tables(s) == Tables(t)
    ensures Tables(AddSymbol(s, name, value)) == Tables(AddSymbol(t, name, value))
    ensures Tables(AddFile(s, name, value)) == Tables(AddFile(t, name, value))
  {
  }

  lemma ExtendsAlike(s: State, t: State, key: ExtensionKey, field: nat)
    requires Tables(s) == Tables(t)
    ensures Tables(AddExtension(s, key, field)) == Tables(AddExtension(t, key, field))
  {
  }

  lemma OwnsAlike(s: State, t: State, kind: Kind, obj: nat)
    requires Tables(s) == Tables(t)
    ensures Tables(Own(s, kind, obj)) == Tables(Own(t, kind, obj))
  {
  }

  lemma {:induction false} ExecAllJoin(s: State, ops: seq<Op>, more: seq<Op>)
    ensures ExecAll(s, ops + more) == ExecAll(ExecAll(s, ops), more)
    decreases |ops|
  {
    if ops == [] {
      assert ops + more == more;
    } else {
      assert (ops + more)[1..] == ops[1..] + more;
      ExecAllJoin(Exec(s, ops[0]), ops[1..], more);
    }
  }

  // ---------- what is found afterwards ----------

  /** A table and its undo log, before and after an insertion under k, which keeps what is there. */
  ghost predicate Inserts<K(!new)>(m: map<K, nat>, log: seq<K>, m2: map<K, nat>, log2: seq<K>, k: K, v: nat) {
    && k in m2 && (if k in m then m2[k] == m[k] && log2 == log else m2[k] == v && log2 == log + [k])
    && forall j :: j != k ==> (j in m2 <==> j in m) && (j in m ==> m2[j] == m[j])
  }

  lemma AddSymbolExact(s: State, name: string, symbol: nat)
    ensures var r := AddSymbol(s, name, symbol);
      && Inserts(s.symbolsByName, s.symbolsAfter, r.symbolsByName, r.symbolsAfter, name, symbol)
      && r.(symbolsByName := s.symbolsByName, symbolsAfter := s.symbolsAfter) == s
  {
  }

  lemma AddFileExact(s: State, name: string, file: nat)
    ensures var r := AddFile(s, name, file);
      && Inserts(s.filesByName, s.filesAfter, r.filesByName, r.filesAfter, name, file)
      && r.(filesByName := s.filesByName, filesAfter := s.filesAfter) == s
  {
  }

  lemma AddExtensionExact(s: State, key: ExtensionKey, field: nat)
    ensures var r := AddExtension(s, key, field);
      && Inserts(s.extensions, s.extensionsAfter, r.extensions, r.extensionsAfter, key, field)
      && r.(extensions := s.extensions, extensionsAfter := s.extensionsAfter) == s
  {
  }

  /** Where something can be looked up. */
  datatype Place = BySymbolName(name: string) | ByFileName(name: string) | ByExtension(key: ExtensionKey)

  /** FindSymbol, FindFile and FindExtension. */
  function Lookup(s: State, at: Place): Option<nat> {
    match at
    case BySymbolName(name) => if name in s.symbolsByName then Some(s.symbolsByName[name]) else None
    case ByFileName(name) => if name in s.filesByName then Some(s.filesByName[name]) else None
    case ByExtension(key) => if key in s.extensions then Some(s.extensions[key]) else None
  }

  /** What the first of these insertions under a key inserts there. */
  ghost function FirstGiven(ops: seq<Op>, at: Place): Option<nat> {
    if ops == [] then None else if Given(ops[0], at).Some? then Given(ops[0], at) else FirstGiven(ops[1..], at)
  }

  ghost function Given(op: Op, at: Place): Option<nat> {
    match op
    case Symbol(name, symbol) => if at == BySymbolName(name) then Some(symbol) else None
    case File(name, file) => if at == ByFileName(name) then Some(file) else None
    case Extension(key, field) => if at == ByExtension(key) then Some(field) else None
    case _ => None
  }

  /** The objects of these allocations that go to one vector, in order. */
  ghost function Made(ops: seq<Op>, kind: Kind): seq<nat> {
    if ops == [] then [] else MadeOne(ops[0], kind) + Made(ops[1..], kind)
  }

  /** AllocateBytes makes nothing of 0 bytes, and one vector of all else. */
  ghost function MadeOne(op: Op, kind: Kind): seq<nat> {
    if op.Allocate? && op.kind != Allocation(0) && (op.kind == kind || (op.kind.Allocation? && kind.Allocation?)) then [op.obj]
    else []
  }

  function Owned(s: State, kind: Kind): seq<nat> {
    match kind
    case String => s.strings
    case Message => s.messages
    case OnceDynamic => s.onceDynamics
    case FileTable => s.fileTables
    case Allocation(_) => s.allocations
  }

  ghost predicate Plain(ops: seq<Op>) { forall i :: 0 <= i < |ops| ==> !ops[i].Transaction? }

  lemma {:induction false} SurvivingPlain(ops: seq<Op>)
    ensures Plain(Surviving(ops))
    decreases ops, 0
  {
    if ops != [] {
      SurvivingPlain(ops[1..]);
      if ops[0].Transaction? {
        SurvivingPlain(ops[0].body);
      }
    }
  }

  lemma PlainOne(s: State, op: Op, at: Place)
    requires !op.Transaction?
    ensures Lookup(Exec(s, op), at) == if Lookup(s, at).Some? then Lookup(s, at) else Given(op, at)
  {
    match op
    case Symbol(name, symbol) => AddSymbolExact(s, name, symbol);
    case File(name, file) => AddFileExact(s, name, file);
    case Extension(key, field) => AddExtensionExact(s, key, field);
    case Allocate(_, _) =>
  }

  lemma {:induction false} PlainLookup(s: State, ops: seq<Op>, at: Place)
    requires Plain(ops)
    ensures Lookup(ExecAll(s, ops), at) == if Lookup(s, at).Some? then Lookup(s, at) else FirstGiven(ops, at)
    decreases |ops|
  {
    if ops != [] {
      PlainOne(s, ops[0], at);
      PlainLookup(Exec(s, ops[0]), ops[1..], at);
    }
  }

  lemma {:induction false} PlainOwned(s: State, ops: seq<Op>, kind: Kind)
    requires Plain(ops)
    ensures Owned(ExecAll(s, ops), kind) == Owned(s, kind) + Made(ops, kind)
    decreases |ops|
  {
    if ops != [] {
      var s1 := Exec(s, ops[0]);
      MadeExact(s, s1, ops[0], kind);
      PlainOwned(s1, ops[1..], kind);
      ConcatAssociates(Owned(s, kind), MadeOne(ops[0], kind), Made(ops[1..], kind));
    }
  }

  lemma MadeExact(s: State, r: State, op: Op, kind: Kind)
    requires !op.Transaction? && r == Exec(s, op)
    ensures Owned(r, kind) == Owned(s, kind) + MadeOne(op, kind)
  {
    match op
    case Symbol(name, symbol) => AddSymbolExact(s, name, symbol);
    case File(name, file) => AddFileExact(s, name, file);
    case Extension(key, field) => AddExtensionExact(s, key, field);
    case Allocate(k, obj) => OwnExact(s, k, obj, kind);
  }

  lemma OwnExact(s: State, k: Kind, obj: nat, kind: Kind)
    ensures Owned(Own(s, k, obj), kind) == Owned(s, kind) + MadeOne(Op.Allocate(k, obj), kind)
  {
  }

  /** Under every key the value inserted first is found, inner transactions counting only if they
      and all around them were committed; what was there before stays. Each vector of owned
      objects has grown by just the objects allocated to it, in order. */
  lemma FirstInsertionStays(s: State, ops: seq<Op>, at: Place, kind: Kind)
    ensures var r := ExecAll(s, ops);
      && Lookup(r, at) == (if Lookup(s, at).Some? then Lookup(s, at) else FirstGiven(Surviving(ops), at))
      && Owned(r, kind) == Owned(s, kind) + Made(Surviving(ops), kind)
  {
    var r, plain := ExecAll(s, ops), ExecAll(s, Surviving(ops));
    NestingIsTransparent(s, s, ops);
    SameFound(r, plain, at, kind);
    SurvivingPlain(ops);
    PlainLookup(s, Surviving(ops), at);
    PlainOwned(s, Surviving(ops), kind);
  }

  lemma SameFound(r: State, t: State, at: Place, kind: Kind)
    requires Tables(r) == Tables(t)
    ensures Lookup(r, at) == Lookup(t, at) && Owned(r, kind) == Owned(t, kind)
  {
    assert Lookup(Tables(r), at) == Lookup(r, at) && Lookup(Tables(t), at) == Lookup(t, at);
    assert Owned(Tables(r), kind) == Owned(r, kind) && Owned(Tables(t), kind) == Owned(t, kind);
  }

  /** A commit keeps the tables as the body left them. The outermost one forgets the undo logs,
      which an inner one leaves to the transaction around it. */
  lemma CommitExact(s: State, body: seq<Op>)
    ensures var t := ExecAll(AddCheckpoint(s), body); var r := Exec(s, Transaction(body, true));
      && r.checkpoints == s.checkpoints && Tables(r) == Tables(t)
      && r.symbolsAfter == (if s.checkpoints == [] then [] else t.symbolsAfter)
      && r.filesAfter == (if s.checkpoints == [] then [] else t.filesAfter)
      && r.extensionsAfter == (if s.checkpoints == [] then [] else t.extensionsAfter)
  {
    var t := ExecAll(AddCheckpoint(s), body);
    assert t.checkpoints == s.checkpoints + [Here(s)];
    assert t.checkpoints[..|t.checkpoints| - 1] == s.checkpoints;
  }
}
