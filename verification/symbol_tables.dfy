/** DescriptorPool::Tables, updated in place: three tables, an undo log for each, the vectors of
    owned objects, and a stack of checkpoints. */
module SymbolTables {
  import opened TableState

  /** What commit and abort find after the body of a transaction. */
  lemma BodyResult(s: State, body: seq<Op>, success: bool)
    ensures var t := ExecAll(TableState.AddCheckpoint(s), body);
      && t.checkpoints == s.checkpoints + [Here(s)] && t.checkpoints[|t.checkpoints| - 1] == Here(s) && Fits(Here(s), t)
      && Exec(s, Transaction(body, success)) == (if success then Clear(t) else Rollback(t))
      && (!success ==> Exec(s, Transaction(body, success)) == s)
  {
    FailedTransactionLeavesNoTrace(s, body);
  }

  class Tables {
    var symbolsByName: map<string, nat>
    var filesByName: map<string, nat>
    var extensions: map<ExtensionKey, nat>
    var symbolsAfterCheckpoint: seq<string>
    var filesAfterCheckpoint: seq<string>
    var extensionsAfterCheckpoint: seq<ExtensionKey>
    var strings: seq<nat>
    var messages: seq<nat>
    var onceDynamics: seq<nat>
    var fileTables: seq<nat>
    var allocations: seq<nat>
    var checkpoints: seq<CheckPoint>

    ghost function View(): State
      reads this
    {
      State(symbolsByName, filesByName, extensions, symbolsAfterCheckpoint, filesAfterCheckpoint, extensionsAfterCheckpoint,
            strings, messages, onceDynamics, fileTables, allocations, checkpoints)
    }

    constructor ()
      ensures View() == EMPTY
    {
      symbolsByName, filesByName, extensions := map[], map[], map[];
      symbolsAfterCheckpoint, filesAfterCheckpoint, extensionsAfterCheckpoint := [], [], [];
      strings, messages, onceDynamics, fileTables, allocations := [], [], [], [], [];
      checkpoints := [];
    }

    method AddCheckpoint()
      modifies this
      ensures View() == TableState.AddCheckpoint(old(View()))
    {
      checkpoints := checkpoints + [CheckPoint(|strings|, |messages|, |onceDynamics|, |fileTables|, |allocations|,
                                               |symbolsAfterCheckpoint|, |filesAfterCheckpoint|, |extensionsAfterCheckpoint|)];
    }

    method ClearLastCheckpoint()
      requires checkpoints != []
      modifies this
      ensures View() == Clear(old(View()))
    {
      checkpoints := checkpoints[..|checkpoints| - 1];
      if checkpoints == [] {
        symbolsAfterCheckpoint := [];
        filesAfterCheckpoint := [];
        extensionsAfterCheckpoint := [];
      }
    }

    method RollbackToLastCheckpoint()
      requires checkpoints != [] && Fits(checkpoints[|checkpoints| - 1], View())
      modifies this
      ensures View() == Rollback(old(View()))
    {
      var checkpoint := checkpoints[|checkpoints| - 1];
      EraseSymbols(checkpoint.symbols);
      EraseFiles(checkpoint.files);
      EraseExtensions(checkpoint.extensions);
      Shrink(checkpoint);
    }

    /** The resizing of the undo logs and of the owned-object vectors. */
    method Shrink(checkpoint: CheckPoint)
      requires checkpoints != [] && Fits(checkpoint, View())
      modifies this
      ensures symbolsByName == old(symbolsByName) && filesByName == old(filesByName) && extensions == old(extensions)
      ensures symbolsAfterCheckpoint == old(symbolsAfterCheckpoint)[..checkpoint.symbols]
      ensures filesAfterCheckpoint == old(filesAfterCheckpoint)[..checkpoint.files]
      ensures extensionsAfterCheckpoint == old(extensionsAfterCheckpoint)[..checkpoint.extensions]
      ensures strings == old(strings)[..checkpoint.strings] && messages == old(messages)[..checkpoint.messages]
      ensures onceDynamics == old(onceDynamics)[..checkpoint.onceDynamics]
      ensures fileTables == old(fileTables)[..checkpoint.fileTables]
      ensures allocations == old(allocations)[..checkpoint.allocations]
      ensures checkpoints == old(checkpoints)[..|old(checkpoints)| - 1]
    {
      symbolsAfterCheckpoint := symbolsAfterCheckpoint[..checkpoint.symbols];
      filesAfterCheckpoint := filesAfterCheckpoint[..checkpoint.files];
      extensionsAfterCheckpoint := extensionsAfterCheckpoint[..checkpoint.extensions];
      strings := strings[..checkpoint.strings];
      messages := messages[..checkpoint.messages];
      onceDynamics := onceDynamics[..checkpoint.onceDynamics];
      fileTables := fileTables[..checkpoint.fileTables];
      allocations := allocations[..checkpoint.allocations];
      checkpoints := checkpoints[..|checkpoints| - 1];
    }

    method EraseSymbols(start: nat)
      requires start <= |symbolsAfterCheckpoint|
      modifies this`symbolsByName
      ensures symbolsByName == old(symbolsByName) - Keys(symbolsAfterCheckpoint[start..])
    {
      var i := start;
      while i < |symbolsAfterCheckpoint|
        invariant start <= i <= |symbolsAfterCheckpoint|
        invariant symbolsByName == old(symbolsByName) - Keys(symbolsAfterCheckpoint[start..i])
      {
        assert symbolsAfterCheckpoint[start..i + 1] == symbolsAfterCheckpoint[start..i] + [symbolsAfterCheckpoint[i]];
        symbolsByName := symbolsByName - {symbolsAfterCheckpoint[i]};
        i := i + 1;
      }
      assert symbolsAfterCheckpoint[start..i] == symbolsAfterCheckpoint[start..];
    }

    method EraseFiles(start: nat)
      requires start <= |filesAfterCheckpoint|
      modifies this`filesByName
      ensures filesByName == old(filesByName) - Keys(filesAfterCheckpoint[start..])
    {
      var i := start;
      while i < |filesAfterCheckpoint|
        invariant start <= i <= |filesAfterCheckpoint|
        invariant filesByName == old(filesByName) - Keys(filesAfterCheckpoint[start..i])
      {
        assert filesAfterCheckpoint[start..i + 1] == filesAfterCheckpoint[start..i] + [filesAfterCheckpoint[i]];
        filesByName := filesByName - {filesAfterCheckpoint[i]};
        i := i + 1;
      }
      assert filesAfterCheckpoint[start..i] == filesAfterCheckpoint[start..];
    }

    method EraseExtensions(start: nat)
      requires start <= |extensionsAfterCheckpoint|
      modifies this`extensions
      ensures extensions == old(extensions) - Keys(extensionsAfterCheckpoint[start..])
    {
      var i := start;
      while i < |extensionsAfterCheckpoint|
        invariant start <= i <= |extensionsAfterCheckpoint|
        invariant extensions == old(extensions) - Keys(extensionsAfterCheckpoint[start..i])
      {
        assert extensionsAfterCheckpoint[start..i + 1] == extensionsAfterCheckpoint[start..i] + [extensionsAfterCheckpoint[i]];
        extensions := extensions - {extensionsAfterCheckpoint[i]};
        i := i + 1;
      }
      assert extensionsAfterCheckpoint[start..i] == extensionsAfterCheckpoint[start..];
    }

    method AddSymbol(fullName: string, symbol: nat) returns (ok: bool)
      modifies this
      ensures View() == TableState.AddSymbol(old(View()), fullName, symbol)
      ensures ok <==> fullName !in old(symbolsByName)
    {
      if fullName !in symbolsByName {
        symbolsByName := symbolsByName[fullName := symbol];
        symbolsAfterCheckpoint := symbolsAfterCheckpoint + [fullName];
        return true;
      }
      return false;
    }

    method AddFile(name: string, file: nat) returns (ok: bool)
      modifies this
      ensures View() == TableState.AddFile(old(View()), name, file)
      ensures ok <==> name !in old(filesByName)
    {
      if name !in filesByName {
        filesByName := filesByName[name := file];
        filesAfterCheckpoint := filesAfterCheckpoint + [name];
        return true;
      }
      return false;
    }

    method AddExtension(key: ExtensionKey, field: nat) returns (ok: bool)
      modifies this
      ensures View() == TableState.AddExtension(old(View()), key, field)
      ensures ok <==> key !in old(extensions)
    {
      if key !in extensions {
        extensions := extensions[key := field];
        extensionsAfterCheckpoint := extensionsAfterCheckpoint + [key];
        return true;
      }
      return false;
    }

    /** AllocateString, AllocateMessage, AllocateOnceDynamic, AllocateFileTables, AllocateBytes:
        the new object goes to its vector, except that for 0 bytes there is none. */
    method Allocate(kind: Kind, obj: nat) returns (made: bool)
      modifies this
      ensures View() == Own(old(View()), kind, obj)
      ensures made <==> kind != Allocation(0)
    {
      if kind == Allocation(0) {
        return false;
      }
      match kind {
        case String => strings := strings + [obj];
        case Message => messages := messages + [obj];
        case OnceDynamic => onceDynamics := onceDynamics + [obj];
        case FileTable => fileTables := fileTables + [obj];
        case Allocation(_) => allocations := allocations + [obj];
      }
      return true;
    }

    /** DescriptorBuilder::BuildFile around BuildFileImpl: the body may do anything that the
        builder does, building other files included, and may fail. */
    method BuildFile(body: seq<Op>, success: bool)
      modifies this
      ensures View() == Exec(old(View()), Transaction(body, success))
      ensures !success ==> View() == old(View())
      decreases body, 1
    {
      ghost var s := View();
      BodyResult(s, body, success);
      AddCheckpoint();
      BuildFileImpl(body);
      if success {
        ClearLastCheckpoint();
      } else {
        RollbackToLastCheckpoint();
      }
    }

    method BuildFileImpl(ops: seq<Op>)
      requires checkpoints != []
      modifies this
      ensures View() == ExecAll(old(View()), ops)
      decreases ops, 0
    {
      var i := 0;
      while i < |ops|
        invariant 0 <= i <= |ops| && checkpoints == old(checkpoints)
        invariant ExecAll(View(), ops[i..]) == ExecAll(old(View()), ops)
      {
        assert ops[i..][0] == ops[i] && ops[i..][1..] == ops[i + 1..];
        match ops[i] {
          case Symbol(name, symbol) => var _ := AddSymbol(name, symbol);
          case File(name, file) => var _ := AddFile(name, file);
          case Extension(key, field) => var _ := AddExtension(key, field);
          case Allocate(kind, obj) => var _ := Allocate(kind, obj);
          case Transaction(body, success) => BuildFile(body, success);
        }
        i := i + 1;
      }
    }
  }
}
