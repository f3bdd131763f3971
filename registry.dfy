/** `get_strategies`: validates every strategy file of a directory listing and
    records, per file key, the name of the function the file defines. */
module Registry {
  import opened Outcomes
  import opened PyStr
  import opened Dicts
  import opened Validator

  /** One entry of the directory listing with the text it holds. */
  datatype SourceFile = SourceFile(name: string, code: string)

  /** file key -> function name, in insertion order */
  type Strategies = Dict<string, string>

  const Pycache := "__pycache__"

  /** `filename.rstrip('.py')`: drops trailing characters of the SET {'.', 'p', 'y'},
      not the suffix ".py". */
  function FileKey(filename: string): (key: string)
    ensures key <= filename
    ensures key == "" || key[|key| - 1] !in {'.', 'p', 'y'}
    ensures forall i :: |key| <= i < |filename| ==> filename[i] in {'.', 'p', 'y'}
  {
    RStrip(filename, {'.', 'p', 'y'})
  }

  /** `happy.py` is registered under the key `ha`. */
  lemma FileKeyStripsCharacters()
    ensures FileKey("happy.py") == "ha"
    ensures FileKey("tit_for_tat.py") == "tit_for_tat"
  {
    var k := FileKey("happy.py");
    assert |k| > 0 ==> k[|k| - 1] == "happy.py"[|k| - 1];
    assert "happy.py"[1] !in {'.', 'p', 'y'};
    assert forall i :: 2 <= i < 8 ==> "happy.py"[i] in {'.', 'p', 'y'};
    assert |k| == 2;
    assert k == "happy.py"[..2];
    var t := FileKey("tit_for_tat.py");
    assert |t| > 0 ==> t[|t| - 1] == "tit_for_tat.py"[|t| - 1];
    assert "tit_for_tat.py"[10] !in {'.', 'p', 'y'};
    assert |t| == 11;
    assert t == "tit_for_tat.py"[..11];
  }

  /** Where `list.remove('__pycache__')` finds its target: the first entry of
      that name, or the length of the listing when there is none. */
  function PycacheIndex(files: seq<SourceFile>): (i: nat)
    ensures i <= |files|
    ensures i < |files| ==> files[i].name == Pycache
    ensures forall j :: 0 <= j < i ==> files[j].name != Pycache
    decreases |files|
  {
    if files == [] then 0
    else if files[0].name == Pycache then 0
    else 1 + PycacheIndex(files[1..])
  }

  /** The listing after `if '__pycache__' in strategyfiles: strategyfiles.remove('__pycache__')`. */
  function RemovePycache(files: seq<SourceFile>): (r: seq<SourceFile>)
    ensures (forall j :: 0 <= j < |files| ==> files[j].name != Pycache) ==> r == files
    ensures forall i ::
      (0 <= i < |files| && files[i].name == Pycache && forall j :: 0 <= j < i ==> files[j].name != Pycache) ==>
        r == files[..i] + files[i + 1..]
  {
    var i := PycacheIndex(files);
    if i < |files| then files[..i] + files[i + 1..] else files
  }

  /** The loop of `get_strategies` from registry `reg` over the remaining files. */
  function LoadFrom(reg: Strategies, files: seq<SourceFile>): Result<Strategies>
    decreases |files|
  {
    if files == [] then Ok(reg)
    else match Validate(files[0].code)
      case Err(f) => Err(f)
      case Ok(name) =>
        if name in reg.m then Err(DuplicateName(name))
        else LoadFrom(Put(reg, FileKey(files[0].name), name), files[1..])
  }

  /** `get_strategies(directory)` as a value of the directory listing. */
  function Load(files: seq<SourceFile>): Result<Strategies> {
    LoadFrom(Empty(), RemovePycache(files))
  }

  /** `get_strategies(directory)`, file by file. */
  method GetStrategies(files: seq<SourceFile>) returns (r: Result<Strategies>)
    ensures r == Load(files)
  {
    var strategyFiles := RemovePycache(files);
    var strategies: Strategies := Empty();
    for i := 0 to |strategyFiles|
      invariant Load(files) == LoadFrom(strategies, strategyFiles[i..])
    {
      var file := strategyFiles[i];
      assert strategyFiles[i..][1..] == strategyFiles[i + 1..];
      var checked := CheckCodeOfAStrategy(file.code);
      if checked.Err? {
        return Err(checked.fault);
      }
      var name := checked.value;
      if name in strategies.m {
        return Err(DuplicateName(name));
      }
      strategies := Put(strategies, FileKey(file.name), name);
    }
    return Ok(strategies);
  }

  /** Every file validates, and its function name is neither a key of reg nor
      the key of an earlier file. */
  ghost predicate Admissible(reg: Strategies, files: seq<SourceFile>) {
    forall i :: 0 <= i < |files| ==>
      Validate(files[i].code).Ok? &&
      Validate(files[i].code).value !in reg.m &&
      forall j :: 0 <= j < i ==> FileKey(files[j].name) != Validate(files[i].code).value
  }

  /** n is the function name of the last file whose key is k. */
  ghost predicate LastFileFor(files: seq<SourceFile>, k: string, n: string) {
    exists i :: 0 <= i < |files| && FileKey(files[i].name) == k && Validate(files[i].code) == Ok(n) &&
      forall j :: i < j < |files| ==> FileKey(files[j].name) != k
  }

  ghost predicate HasFileFor(files: seq<SourceFile>, k: string) {
    exists i :: 0 <= i < |files| && FileKey(files[i].name) == k
  }

  lemma {:induction false} LoadFromOkIff(reg: Strategies, files: seq<SourceFile>)
    ensures LoadFrom(reg, files).Ok? <==> Admissible(reg, files)
    decreases |files|
  {
    if files != [] {
      var v := Validate(files[0].code);
      if v.Ok? && v.value !in reg.m {
        var reg' := Put(reg, FileKey(files[0].name), v.value);
        assert LoadFrom(reg, files) == LoadFrom(reg', files[1..]);
        LoadFromOkIff(reg', files[1..]);
        if Admissible(reg, files) {
          AdmissibleTail(reg, files);
        }
        if Admissible(reg', files[1..]) {
          AdmissibleFromTail(reg, files);
        }
      } else {
        assert LoadFrom(reg, files).Err?;
        assert !(Validate(files[0].code).Ok? && Validate(files[0].code).value !in reg.m);
      }
    }
  }

  /** What is left to load after an admissible first file is admissible. */
  lemma AdmissibleTail(reg: Strategies, files: seq<SourceFile>)
    requires files != [] && Admissible(reg, files)
    ensures Admissible(Put(reg, FileKey(files[0].name), Validate(files[0].code).value), files[1..])
  {
    var reg' := Put(reg, FileKey(files[0].name), Validate(files[0].code).value);
    var rest := files[1..];
    forall i | 0 <= i < |rest|
      ensures Validate(rest[i].code).Ok? && Validate(rest[i].code).value !in reg'.m
      ensures forall j :: 0 <= j < i ==> FileKey(rest[j].name) != Validate(rest[i].code).value
    {
      assert rest[i] == files[i + 1];
      assert forall j :: 0 <= j < i ==> rest[j] == files[j + 1];
      assert FileKey(files[0].name) != Validate(files[i + 1].code).value;
    }
  }

  /** An admissible first file followed by an admissible rest is admissible. */
  lemma AdmissibleFromTail(reg: Strategies, files: seq<SourceFile>)
    requires files != [] && Validate(files[0].code).Ok? && Validate(files[0].code).value !in reg.m
    requires Admissible(Put(reg, FileKey(files[0].name), Validate(files[0].code).value), files[1..])
    ensures Admissible(reg, files)
  {
    var reg' := Put(reg, FileKey(files[0].name), Validate(files[0].code).value);
    var rest := files[1..];
    forall i | 0 <= i < |files|
      ensures Validate(files[i].code).Ok? && Validate(files[i].code).value !in reg.m
      ensures forall j :: 0 <= j < i ==> FileKey(files[j].name) != Validate(files[i].code).value
    {
      if i > 0 {
        assert files[i] == rest[i - 1];
        assert forall j :: 0 < j < i ==> files[j] == rest[j - 1];
      }
    }
  }

  lemma HasFileForCons(files: seq<SourceFile>, k: string)
    requires files != []
    ensures HasFileFor(files, k) <==> k == FileKey(files[0].name) || HasFileFor(files[1..], k)
  {
    if HasFileFor(files, k) && k != FileKey(files[0].name) {
      var i :| 0 <= i < |files| && FileKey(files[i].name) == k;
      assert files[1..][i - 1] == files[i];
    }
    if HasFileFor(files[1..], k) {
      var i :| 0 <= i < |files[1..]| && FileKey(files[1..][i].name) == k;
      assert files[i + 1] == files[1..][i];
    }
  }

  /** The keys of a successful load from reg: those of reg, in their order,
      followed by the keys of the files. */
  lemma {:induction false} LoadFromKeys(reg: Strategies, files: seq<SourceFile>)
    requires Valid(reg) && LoadFrom(reg, files).Ok?
    ensures Valid(LoadFrom(reg, files).value)
    ensures reg.keys <= LoadFrom(reg, files).value.keys
    ensures forall k :: k in LoadFrom(reg, files).value.m <==> k in reg.m || HasFileFor(files, k)
    decreases |files|
  {
    if files != [] {
      var name := Validate(files[0].code).value;
      var reg' := Put(reg, FileKey(files[0].name), name);
      assert LoadFrom(reg, files) == LoadFrom(reg', files[1..]);
      LoadFromKeys(reg', files[1..]);
      forall k | true
        ensures HasFileFor(files, k) <==> k == FileKey(files[0].name) || HasFileFor(files[1..], k)
      {
        HasFileForCons(files, k);
      }
    }
  }

  /** Each key of a successful load from reg maps to the function name of the
      last file with that key, or keeps its value from reg when no file has it. */
  lemma {:induction false} LoadFromValues(reg: Strategies, files: seq<SourceFile>, k: string)
    requires LoadFrom(reg, files).Ok? && k in LoadFrom(reg, files).value.m
    ensures LastFileFor(files, k, LoadFrom(reg, files).value.m[k]) ||
      (!HasFileFor(files, k) && k in reg.m && LoadFrom(reg, files).value.m[k] == reg.m[k])
    decreases |files|
  {
    if files != [] {
      var name := Validate(files[0].code).value;
      var key := FileKey(files[0].name);
      var reg' := Put(reg, key, name);
      var rest := files[1..];
      var v := LoadFrom(reg, files).value.m[k];
      assert LoadFrom(reg, files) == LoadFrom(reg', rest);
      LoadFromValues(reg', rest, k);
      HasFileForCons(files, k);
      if LastFileFor(rest, k, v) {
        LastFileForCons(files, k, v);
      } else if k == key {
        LastFileForHead(files, k, v);
      }
    }
  }

  lemma LastFileForCons(files: seq<SourceFile>, k: string, v: string)
    requires files != [] && LastFileFor(files[1..], k, v)
    ensures LastFileFor(files, k, v)
  {
    var rest := files[1..];
    var i :| 0 <= i < |rest| && FileKey(rest[i].name) == k && Validate(rest[i].code) == Ok(v) &&
      forall j :: i < j < |rest| ==> FileKey(rest[j].name) != k;
    assert files[i + 1] == rest[i];
    forall j | i + 1 < j < |files| ensures FileKey(files[j].name) != k {
      assert files[j] == rest[j - 1];
    }
    assert FileKey(files[i + 1].name) == k && Validate(files[i + 1].code) == Ok(v);
  }

  lemma LastFileForHead(files: seq<SourceFile>, k: string, v: string)
    requires files != [] && FileKey(files[0].name) == k && Validate(files[0].code) == Ok(v)
    requires !HasFileFor(files[1..], k)
    ensures LastFileFor(files, k, v)
  {
    var rest := files[1..];
    forall j | 0 < j < |files| ensures FileKey(files[j].name) != k {
      assert files[j] == rest[j - 1];
    }
  }

  /** Loading succeeds exactly when every file (after dropping `__pycache__`)
      validates and no function name equals the key of an earlier file;
      names are compared with file KEYS, never with other function names. */
  lemma LoadOkIff(files: seq<SourceFile>)
    ensures Load(files).Ok? <==>
      forall i :: 0 <= i < |RemovePycache(files)| ==>
        Validate(RemovePycache(files)[i].code).Ok? &&
        forall j :: 0 <= j < i ==>
          FileKey(RemovePycache(files)[j].name) != Validate(RemovePycache(files)[i].code).value
  {
    LoadFromOkIff(Empty(), RemovePycache(files));
  }

  /** A loaded registry has one entry per distinct file key, and each maps to
      the function name of the last file with that key. */
  lemma LoadResult(files: seq<SourceFile>)
    requires Load(files).Ok?
    ensures Valid(Load(files).value)
    ensures forall k :: k in Load(files).value.m <==> HasFileFor(RemovePycache(files), k)
    ensures forall k :: k in Load(files).value.m ==>
      LastFileFor(RemovePycache(files), k, Load(files).value.m[k])
  {
    LoadFromKeys(Empty(), RemovePycache(files));
    forall k | k in Load(files).value.m
      ensures LastFileFor(RemovePycache(files), k, Load(files).value.m[k])
    {
      LoadFromValues(Empty(), RemovePycache(files), k);
    }
  }

  /** Two files may register the same function under two keys. */
  lemma SameFunctionTwice(a: string, b: string, code: string)
    requires a != Pycache && b != Pycache && FileKey(a) != FileKey(b)
    requires Validate(code).Ok? && Validate(code).value != FileKey(a)
    ensures Load([SourceFile(a, code), SourceFile(b, code)]).Ok?
    ensures Load([SourceFile(a, code), SourceFile(b, code)]).value.m ==
      map[FileKey(a) := Validate(code).value, FileKey(b) := Validate(code).value]
  {
    var n := Validate(code).value;
    LoadTwo(SourceFile(a, code), SourceFile(b, code), n, n);
  }

  /** One function uploaded twice under the app's convention (`f.py` defining
      `f`): the second copy's name is the first copy's key, so it is refused. */
  lemma SameFunctionUploadedTwice(a: string, b: string, code: string)
    requires a != Pycache && b != Pycache
    requires Validate(code) == Ok(FileKey(a))
    ensures Load([SourceFile(a, code), SourceFile(b, code)]) == Err(DuplicateName(FileKey(a)))
  {
    NameEqualToEarlierKey(a, b, code, code);
  }

  /** A function named like the key of an earlier file is refused, though no
      other function has that name. */
  lemma NameEqualToEarlierKey(a: string, b: string, codeA: string, codeB: string)
    requires a != Pycache && b != Pycache
    requires Validate(codeA).Ok?
    requires Validate(codeB) == Ok(FileKey(a))
    ensures Load([SourceFile(a, codeA), SourceFile(b, codeB)]) == Err(DuplicateName(FileKey(a)))
  {
    var files := [SourceFile(a, codeA), SourceFile(b, codeB)];
    assert PycacheIndex(files) == 2 by {
      assert PycacheIndex(files[1..][1..]) == 0;
    }
    var reg1 := Put(Empty(), FileKey(a), Validate(codeA).value);
    assert LoadFrom(Empty(), files) == LoadFrom(reg1, files[1..]);
  }

  /** Two files given one after the other: both validate and are admitted. */
  lemma LoadTwo(fa: SourceFile, fb: SourceFile, na: string, nb: string)
    requires fa.name != Pycache && fb.name != Pycache
    requires Validate(fa.code) == Ok(na) && Validate(fb.code) == Ok(nb)
    requires nb != FileKey(fa.name)
    ensures RemovePycache([fa, fb]) == [fa, fb]
    ensures Load([fa, fb]) == Ok(Put(Put(Empty(), FileKey(fa.name), na), FileKey(fb.name), nb))
  {
    var files := [fa, fb];
    assert PycacheIndex(files) == 2 by {
      assert PycacheIndex(files[1..][1..]) == 0;
    }
    var reg1 := Put(Empty(), FileKey(fa.name), na);
    assert LoadFrom(Empty(), files) == LoadFrom(reg1, files[1..]);
    assert LoadFrom(reg1, files[1..]) == LoadFrom(Put(reg1, FileKey(fb.name), nb), files[1..][1..]);
    assert files[1..][1..] == [];
  }

  /** A later file with the same key replaces the earlier one in place. */
  lemma LaterFileOverwrites(a: string, b: string, codeA: string, codeB: string)
    requires a != Pycache && b != Pycache && FileKey(a) == FileKey(b)
    requires Validate(codeA).Ok?
    requires Validate(codeB).Ok? && Validate(codeB).value != FileKey(a)
    ensures Load([SourceFile(a, codeA), SourceFile(b, codeB)]) ==
      Ok(Dict([FileKey(a)], map[FileKey(a) := Validate(codeB).value]))
  {
    var nb := Validate(codeB).value;
    LoadTwo(SourceFile(a, codeA), SourceFile(b, codeB), Validate(codeA).value, nb);
    PutTwice(FileKey(a), Validate(codeA).value, nb);
  }

  lemma PutTwice(k: string, x: string, y: string)
    ensures Put(Put(Empty(), k, x), k, y) == Dict([k], map[k := y])
  {
    assert Put(Empty<string, string>(), k, x).m == map[k := x];
  }
}
