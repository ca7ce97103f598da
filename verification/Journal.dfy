/** The intent journal (`transaction_journal.py`): the stored record and its
    strict decoding, the POSIX store with its temporary file and atomic publish,
    and the operations on top. Every system call may fail, and a process may be
    killed after any of them: the store keeps the history of its contents. An oracle says
    which calls fail, so that a refusal without a failed call must have another reason. */
module Journal {
  import opened Wrappers
  import opened JsonText
  import opened Unicode

  const MAX_RECORDS := 128
  const MAX_RECORD_BYTES := 64 * 1024
  const MAX_WARNING_BYTES := 4096

  // Records

  datatype Tool = Write | Edit | NotebookEdit

  datatype Stored = Stored(id: Text, workspace: Text, tool: Tool, path: Text, sha256: Text, warnings: seq<Text>)

  predicate LowerHex(s: Text) { forall i | 0 <= i < |s| :: 48 <= s[i] <= 57 || 97 <= s[i] <= 102 }

  predicate IsId(s: Text) { |s| == 32 && LowerHex(s) }

  predicate IsDigest(s: Text) { |s| == 64 && LowerHex(s) }

  predicate IsIdentity(s: Text) { 2 <= |s| <= 8192 && |s| % 2 == 0 && LowerHex(s) }

  /** The parts between slashes. */
  function Parts(p: Text): seq<Text> {
    if p == [] then [[]]
    else
      var rest := Parts(p[1..]);
      if p[0] == 47 || rest == [] then [[]] + rest else [[p[0]] + rest[0]] + rest[1..]
  }

  predicate IsRelative(p: Text) { p != [] && p[0] != 47 && [46, 46] !in Parts(p) }

  predicate IsWarning(s: Text) {
    Encodable(s) && Utf8(s) <= MAX_WARNING_BYTES
  }

  predicate Valid(r: Stored) {
    && IsId(r.id) && IsIdentity(r.workspace) && IsRelative(r.path) && IsDigest(r.sha256)
    && forall i | 0 <= i < |r.warnings| :: IsWarning(r.warnings[i])
  }

  datatype Field = SchemaVersion | TransactionId | WorkspaceIdentity | ToolName | Path | Sha256 | Warnings

  function Key(f: Field): Text {
    match f
    case SchemaVersion => [118, 101, 114, 115, 105, 111, 110]
    case TransactionId => [116, 114, 97, 110, 115, 97, 99, 116, 105, 111, 110, 95, 105, 100]
    case WorkspaceIdentity => [119, 111, 114, 107, 115, 112, 97, 99, 101, 95, 105, 100, 101, 110, 116, 105, 116, 121]
    case ToolName => [116, 111, 111, 108]
    case Path => [112, 97, 116, 104]
    case Sha256 => [115, 104, 97, 50, 53, 54]
    case Warnings => [119, 97, 114, 110, 105, 110, 103, 115]
  }

  function Spell(t: Tool): Text {
    match t
    case Write => [87, 114, 105, 116, 101]
    case Edit => [69, 100, 105, 116]
    case NotebookEdit => [78, 111, 116, 101, 98, 111, 111, 107, 69, 100, 105, 116]
  }

  function ToolOf(s: Text): Option<Tool> {
    if s == Spell(Write) then Some(Write)
    else if s == Spell(Edit) then Some(Edit)
    else if s == Spell(NotebookEdit) then Some(NotebookEdit)
    else None
  }

  function Payload(r: Stored): Object {
    [(Key(SchemaVersion), Num(1)), (Key(TransactionId), Str(r.id)), (Key(WorkspaceIdentity), Str(r.workspace)),
     (Key(ToolName), Str(Spell(r.tool))), (Key(Path), Str(r.path)), (Key(Sha256), Str(r.sha256)),
     (Key(Warnings), List(r.warnings))]
  }

  /** `_encode`: nothing when the record would exceed 64 KiB. */
  function EncodeRecord(r: Stored): Option<Text> {
    var encoded := Encode(Payload(r));
    if |encoded| > MAX_RECORD_BYTES then None else Some(encoded)
  }

  /** A strict object has no duplicate key, so its first match is its only one. */
  function Find(o: Object, key: Text): Option<Value> {
    if o == [] then None else if o[0].0 == key then Some(o[0].1) else Find(o[1..], key)
  }

  predicate Distinct(o: Object) { forall i, j | 0 <= i < j < |o| :: o[i].0 != o[j].0 }

  function TextOf(v: Option<Value>): Text { if v.Some? && v.value.Str? then v.value.text else [] }

  /** `_validate_stored`. */
  function Validate(o: Object): Option<Stored> {
    var tool := ToolOf(TextOf(Find(o, Key(ToolName))));
    var warnings := Find(o, Key(Warnings));
    if !Distinct(o) || |o| != 7 || Find(o, Key(SchemaVersion)) != Some(Num(1)) || tool.None? then None
    else if warnings.None? || !warnings.value.List? then None
    else
      var r := Stored(TextOf(Find(o, Key(TransactionId))), TextOf(Find(o, Key(WorkspaceIdentity))), tool.value,
                      TextOf(Find(o, Key(Path))), TextOf(Find(o, Key(Sha256))), warnings.value.items);
      if Valid(r) then Some(r) else None
  }

  /** `_decode`. */
  function DecodeRecord(data: Text): (r: Option<Stored>)
    ensures r.Some? ==> Valid(r.value)
  {
    if |data| > MAX_RECORD_BYTES then None
    else
      var o := Parse(data);
      if o.None? then None else Validate(o.value)
  }

  lemma HexIsClean(s: Text)
    requires LowerHex(s)
    ensures CleanText(s)
  {
  }

  lemma KeysClean()
    ensures forall f :: CleanText(Key(f))
    ensures forall t :: CleanText(Spell(t))
  {
    forall f ensures CleanText(Key(f)) {
      assert forall i | 0 <= i < |Key(f)| :: Key(f)[i] < 128;
    }
    forall t ensures CleanText(Spell(t)) {
      assert forall i | 0 <= i < |Spell(t)| :: Spell(t)[i] < 128;
    }
  }

  lemma KeysDiffer()
    ensures forall f, g :: Key(f) == Key(g) ==> f == g
    ensures forall t :: ToolOf(Spell(t)) == Some(t)
  {
    forall f, g | Key(f) == Key(g) ensures f == g {
      assert |Key(f)| == |Key(g)| && Key(f)[0] == Key(g)[0];
    }
    forall t ensures ToolOf(Spell(t)) == Some(t) {
      assert |Spell(Write)| != |Spell(Edit)| && |Spell(NotebookEdit)| != |Spell(Edit)|;
      assert |Spell(NotebookEdit)| != |Spell(Write)|;
    }
  }

  lemma {:induction false} PayloadClean(r: Stored)
    requires Valid(r) && CleanText(r.path)
    ensures Clean(Payload(r))
  {
    KeysClean();
    HexIsClean(r.id);
    HexIsClean(r.workspace);
    HexIsClean(r.sha256);
    hide Key, Spell;
  }

  lemma {:induction false} FindAt(o: Object, i: nat)
    requires Distinct(o) && i < |o|
    ensures Find(o, o[i].0) == Some(o[i].1)
    decreases |o|
  {
    if i > 0 {
      assert Distinct(o[1..]) by {
        forall j, k | 0 <= j < k < |o[1..]| ensures o[1..][j].0 != o[1..][k].0 {
          assert o[j + 1].0 != o[k + 1].0;
        }
      }
      FindAt(o[1..], i - 1);
    }
  }

  lemma PayloadDistinct(r: Stored)
    ensures Distinct(Payload(r))
  {
    hide Key, Spell;
    KeysDiffer();
  }

  lemma ValidatePayload(r: Stored)
    requires Valid(r)
    ensures Validate(Payload(r)) == Some(r)
  {
    hide Key, Spell, Valid, Find, Distinct, ToolOf;
    KeysDiffer();
    PayloadDistinct(r);
    var o := Payload(r);
    FindAt(o, 0);
    FindAt(o, 1);
    FindAt(o, 2);
    FindAt(o, 3);
    FindAt(o, 4);
    FindAt(o, 5);
    FindAt(o, 6);
  }

  /** A valid record is read back exactly. */
  lemma RecordRoundTrip(r: Stored)
    requires Valid(r) && CleanText(r.path) && EncodeRecord(r).Some?
    ensures DecodeRecord(EncodeRecord(r).value) == Some(r)
  {
    PayloadClean(r);
    ParseEncode(Payload(r), []);
    ValidatePayload(r);
    hide Parse, Encode, Validate, Payload;
  }

  // What a record may say

  /** At position `i` is a whole part that reads "..". */
  predicate DotDot(p: Text, i: nat) {
    && i + 2 <= |p| && p[i] == 46 && p[i + 1] == 46
    && (i == 0 || p[i - 1] == 47) && (i + 2 == |p| || p[i + 2] == 47)
  }

  lemma PartsHead(p: Text)
    ensures Parts(p) != [] && (Parts(p)[0] == [] <==> p == [] || p[0] == 47)
    ensures Parts(p)[0] == [46] <==> p != [] && p[0] == 46 && (|p| == 1 || p[1] == 47)
    ensures Parts(p)[0] == [46, 46] <==> DotDot(p, 0)
  {
    if p != [] && p[0] != 47 {
      PartsHead(p[1..]);
      assert Parts(p)[0] == [p[0]] + Parts(p[1..])[0];
      assert Parts(p)[0][1..] == Parts(p[1..])[0];
      assert [46, 46][1..] == [46] && [46][1..] == [];
      assert [46] + [46] == [46, 46] && [46] + [] == [46];
    }
  }

  lemma {:induction false} PartsTail(p: Text)
    ensures [46, 46] in Parts(p)[1..] <==> exists i: nat :: i > 0 && DotDot(p, i)
    decreases |p|
  {
    PartsHead(p);
    if p != [] {
      var q := p[1..];
      PartsHead(q);
      PartsTail(q);
      assert Parts(q) == [Parts(q)[0]] + Parts(q)[1..];
      forall i: nat | i > 0 ensures DotDot(p, i) <==> DotDot(q, i - 1) && (i > 1 || p[0] == 47) { }
      if i: nat :| i > 0 && DotDot(q, i) { assert DotDot(p, i + 1); }
      if DotDot(q, 0) && p[0] == 47 { assert DotDot(p, 1); }
    }
  }

  /** The path of a record is relative, and none of its parts leads upwards. */
  lemma {:induction false} RelativeMeans(p: Text)
    ensures IsRelative(p) <==> p != [] && p[0] != 47 && forall i: nat :: !DotDot(p, i)
  {
    PartsHead(p);
    PartsTail(p);
    assert Parts(p) == [Parts(p)[0]] + Parts(p)[1..];
    hide Parts, DotDot;
    if i: nat :| DotDot(p, i) {
      assert i == 0 || i > 0;
    }
  }

  /** Some digits between 0 and 9 or a and f. */
  predicate HexDigits(s: Text) {
    forall c | c in s :: c in [48, 49, 50, 51, 52, 53, 54, 55, 56, 57, 97, 98, 99, 100, 101, 102]
  }

  /** What is required of a record, field by field; it is what decoding enforces. */
  lemma {:induction false} ValidMeans(r: Stored)
    ensures Valid(r) <==>
            && |r.id| == 32 && HexDigits(r.id) && |r.sha256| == 64 && HexDigits(r.sha256)
            && 2 <= |r.workspace| <= 8192 && |r.workspace| % 2 == 0 && HexDigits(r.workspace)
            && r.path != [] && r.path[0] != 47 && (forall i: nat :: !DotDot(r.path, i))
            && forall w | w in r.warnings :: Encodable(w) && Utf8(w) <= 4096
  {
    RelativeMeans(r.path);
    LowerHexMeans(r.id);
    LowerHexMeans(r.sha256);
    LowerHexMeans(r.workspace);
    hide IsRelative, LowerHex, HexDigits, Encodable, Utf8, DotDot;
  }

  lemma LowerHexMeans(s: Text)
    ensures LowerHex(s) <==> HexDigits(s)
  {
    if HexDigits(s) {
      forall i | 0 <= i < |s| ensures 48 <= s[i] <= 57 || 97 <= s[i] <= 102 { assert s[i] in s; }
    }
  }

  lemma {:induction false} FindIn(o: Object, key: Text)
    ensures Find(o, key).Some? ==> (key, Find(o, key).value) in o
  {
    if o != [] && o[0].0 != key {
      FindIn(o[1..], key);
    }
  }

  lemma ToolSpelled(s: Text)
    ensures ToolOf(s).Some? ==> s == Spell(ToolOf(s).value) && s != []
  {
  }

  /** Decoding is strict: the data is one object with seven members under different keys,
      and they are those of the record that is returned. */
  lemma {:induction false} DecodeIsStrict(data: Text)
    requires DecodeRecord(data).Some?
    ensures |data| <= 64 * 1024 && Parse(data).Some?
    ensures var o, r := Parse(data).value, DecodeRecord(data).value;
            && |o| == 7 && (forall i, j | 0 <= i < j < |o| :: o[i].0 != o[j].0)
            && forall m | m in Payload(r) :: m in o
  {
    hide Parse;
    var o, r := Parse(data).value, DecodeRecord(data).value;
    assert Validate(o) == Some(r);
    StrictFields(o, r);
    StrictTool(o, r);
    assert Distinct(o);
    hide Validate, Key, Spell, Valid;
  }

  lemma StrictFields(o: Object, r: Stored)
    requires Validate(o) == Some(r)
    ensures (Key(TransactionId), Str(r.id)) in o && (Key(WorkspaceIdentity), Str(r.workspace)) in o
    ensures (Key(Path), Str(r.path)) in o && (Key(Sha256), Str(r.sha256)) in o
    ensures (Key(SchemaVersion), Num(1)) in o && (Key(Warnings), List(r.warnings)) in o
  {
    FindIn(o, Key(TransactionId));
    FindIn(o, Key(WorkspaceIdentity));
    FindIn(o, Key(Path));
    FindIn(o, Key(Sha256));
    FindIn(o, Key(SchemaVersion));
    FindIn(o, Key(Warnings));
    assert r.id != [] && r.workspace != [] && r.path != [] && r.sha256 != [];
    hide Key, Spell, Find, Distinct, ToolOf;
  }

  lemma StrictTool(o: Object, r: Stored)
    requires Validate(o) == Some(r)
    ensures (Key(ToolName), Str(Spell(r.tool))) in o
  {
    FindIn(o, Key(ToolName));
    ToolSpelled(TextOf(Find(o, Key(ToolName))));
    hide Key, Spell, Find, Distinct, ToolOf, Valid;
  }

  // The store

  datatype FileName = Record(id: Text) | Temp(id: Text)

  type Contents = map<FileName, Text>

  function At(c: Contents, n: FileName): Option<Text> { if n in c then Some(c[n]) else None }

  /** What the journal says: the records that decode, by the id in their names. */
  function Table(c: Contents): map<Text, Stored> {
    map n | n in c && n.Record? && DecodeRecord(c[n]).Some? :: n.id := DecodeRecord(c[n]).value
  }

  /** The records are as before, but for one name that holds the old or the new data whole. */
  ghost predicate OldOrNew(before: Contents, c: Contents, id: Text, data: Option<Text>) {
    && (forall m: Text | m != id :: At(c, Record(m)) == At(before, Record(m)))
    && (At(c, Record(id)) == At(before, Record(id)) || At(c, Record(id)) == data)
  }

  ghost predicate SameRecords(before: Contents, c: Contents) {
    forall m: Text :: At(c, Record(m)) == At(before, Record(m))
  }

  datatype Outcome =
    | Published
    | PublishedRaised        // published, but a later check or directory sync raised
    | NotPublished

  /** The ids of the records. */
  function Ids(c: Contents): set<Text> { set n | n in c && n.Record? :: n.id }

  class Store {
    const fails: nat -> bool       // by the number of the system call
    var calls: nat
    var files: Contents
    ghost var history: seq<Contents>

    constructor (files: Contents, fails: nat -> bool)
      ensures this.files == files && this.fails == fails && calls == 0 && history == [files]
    {
      this.files, this.fails, this.calls, this.history := files, fails, 0, [files];
    }

    /** No system call from number `from` on has failed. */
    predicate Calm(from: nat)
      reads this
    {
      forall i | from <= i < calls :: !fails(i)
    }

    /** One system call that may fail. */
    method Fault() returns (fault: bool)
      modifies this`calls
      ensures fault == fails(old(calls)) && calls == old(calls) + 1
    {
      fault, calls := fails(calls), calls + 1;
    }

    /** One atomic change of the directory. */
    method Step(next: Contents)
      modifies this`files, this`history
      ensures files == next && history == old(history) + [next]
    {
      files, history := next, history + [next];
    }

    /** The ids of the records, in any order. */
    method List() returns (list: seq<Text>)
      ensures |list| == |Ids(files)| && (forall id :: id in list <==> Record(id) in files)
      ensures forall i, j | 0 <= i < j < |list| :: list[i] != list[j]
    {
      var left := Ids(files);
      list := [];
      while left != {}
        invariant |list| + |left| == |Ids(files)|
        invariant forall id :: Record(id) in files <==> id in left || id in list
        invariant forall i | 0 <= i < |list| :: list[i] !in left
        invariant forall i, j | 0 <= i < j < |list| :: list[i] != list[j]
        decreases left
      {
        var id :| id in left;
        list, left := list + [id], left - {id};
      }
    }

    /** `names`: removes stale temporaries, lists record names only. */
    method Names() returns (ids: Option<seq<Text>>)
      modifies this
      ensures SameRecords(old(files), files) && old(history) <= history && old(calls) <= calls
      ensures forall i | |old(history)| <= i < |history| :: SameRecords(old(files), history[i])
      ensures Calm(old(calls)) ==> (ids.Some? <==> |Ids(old(files))| <= MAX_RECORDS)
      ensures ids.Some? ==>
        && |ids.value| == |Ids(files)| <= MAX_RECORDS
        && (forall i, j | 0 <= i < j < |ids.value| :: ids.value[i] != ids.value[j])
        && (forall id :: id in ids.value <==> Record(id) in files)
        && (forall n | n in files :: n.Record?)
    {
      var stale := set n | n in files && n.Temp?;
      while stale != {}
        invariant forall n | n in files && n.Temp? :: n in stale
        invariant SameRecords(old(files), files) && old(history) <= history && old(calls) <= calls
        invariant forall i | |old(history)| <= i < |history| :: SameRecords(old(files), history[i])
        decreases stale
      {
        var n :| n in stale;
        var fault := Fault();
        if fault {
          return None;
        }
        Step(files - {n});
        stale := stale - {n};
      }
      SameIds(old(files), files);
      hide SameRecords, Ids;
      var list := List();
      return if |list| > MAX_RECORDS then None else Some(list);
    }

    /** The temporary file, filled piece by piece; what `write` takes at once is any part. */
    method FillTemp(id: Text, data: Text) returns (filled: bool)
      modifies this
      ensures SameRecords(old(files), files) && old(history) <= history && old(calls) <= calls
      ensures forall i | |old(history)| <= i < |history| :: SameRecords(old(files), history[i])
      ensures filled ==> At(files, Temp(id)) == Some(data)
      ensures Calm(old(calls)) ==> filled
    {
      Step(files[Temp(id) := []]);            // opened or created, then truncated
      var rest := data;
      filled := true;
      while rest != [] && filled
        invariant old(history) <= history && Temp(id) in files && files[Temp(id)] + rest == data
        invariant SameRecords(old(files), files) && old(calls) <= calls && (Calm(old(calls)) ==> filled)
        invariant forall i | |old(history)| <= i < |history| :: SameRecords(old(files), history[i])
        decreases |rest|, filled
      {
        var fault := Fault();
        if fault {
          filled := false;
        } else {
          var taken :| 1 <= taken <= |rest|;
          Step(files[Temp(id) := files[Temp(id)] + rest[..taken]]);
          assert rest == rest[..taken] + rest[taken..];
          rest := rest[taken..];
        }
      }
      if filled {
        assert files[Temp(id)] == files[Temp(id)] + rest == data;
      }
    }

    /** `write`: fill the temporary, then publish it by one rename. */
    method Write(id: Text, data: Text, baseline: Option<Text>) returns (o: Outcome)
      modifies this
      ensures old(history) <= history
      ensures forall i | |old(history)| <= i < |history| :: OldOrNew(old(files), history[i], id, Some(data))
      ensures OldOrNew(old(files), files, id, Some(data))
      ensures !o.NotPublished? ==> At(files, Record(id)) == Some(data) && baseline == At(old(files), Record(id))
      ensures o.NotPublished? ==> SameRecords(old(files), files)
      ensures old(calls) <= calls
      ensures Calm(old(calls)) ==>
        && o == (if baseline == At(old(files), Record(id)) then Published else NotPublished)
        && Temp(id) !in files
    {
      var fault := Fault();
      if fault {
        return NotPublished;
      }
      var filled := FillTemp(id, data);
      fault := Fault();                        // fsync of the temporary
      if !filled || fault {
        return NotPublished;                   // a stale temporary remains
      }
      fault := Fault();
      if fault || baseline != At(files, Record(id)) {
        fault := Fault();
        if !fault {
          Step(files - {Temp(id)});
        }
        return NotPublished;
      }
      Step((files - {Temp(id)})[Record(id) := files[Temp(id)]]);
      fault := Fault();
      return if fault then PublishedRaised else Published;
    }

    method Delete(id: Text, baseline: Text) returns (deleted: bool)
      modifies this
      ensures old(history) <= history
      ensures forall i | |old(history)| <= i < |history| :: OldOrNew(old(files), history[i], id, None)
      ensures OldOrNew(old(files), files, id, None)
      ensures deleted ==> Record(id) !in files && At(old(files), Record(id)) == Some(baseline)
      ensures old(calls) <= calls
      ensures Calm(old(calls)) ==> (deleted <==> At(old(files), Record(id)) == Some(baseline))
    {
      var fault := Fault();
      if fault || At(files, Record(id)) != Some(baseline) {
        return false;
      }
      Step(files - {Record(id)});
      fault := Fault();                        // the directory sync may still raise
      return !fault;
    }
  }

  lemma SameIds(a: Contents, b: Contents)
    requires SameRecords(a, b)
    ensures Ids(a) == Ids(b)
    ensures forall id :: Record(id) in a <==> Record(id) in b
    ensures forall id | Record(id) in a && Record(id) in b :: a[Record(id)] == b[Record(id)]
  {
    forall id ensures At(a, Record(id)) == At(b, Record(id)) { }
    forall id ensures id in Ids(a) <==> id in Ids(b) {
      assert At(a, Record(id)) == At(b, Record(id));
      assert id in Ids(a) <==> Record(id) in a;
      assert id in Ids(b) <==> Record(id) in b;
    }
  }

  // The operations

  lemma TableSame(a: Contents, b: Contents)
    requires SameRecords(a, b)
    ensures Table(a) == Table(b)
  {
    hide DecodeRecord;
    forall id ensures id in Table(a) <==> id in Table(b) {
      assert At(a, Record(id)) == At(b, Record(id));
      TableAt(a, id);
      TableAt(b, id);
    }
    forall id | id in Table(a) ensures Table(a)[id] == Table(b)[id] {
      assert At(a, Record(id)) == At(b, Record(id));
      TableAt(a, id);
      TableAt(b, id);
    }
  }

  lemma TableAt(c: Contents, id: Text)
    ensures id in Table(c) <==> Record(id) in c && DecodeRecord(c[Record(id)]).Some?
    ensures id in Table(c) ==> Table(c)[id] == DecodeRecord(c[Record(id)]).value
  {
    hide DecodeRecord;
    if id in Table(c) {
      assert Record(id) in c;
    }
    if Record(id) in c && DecodeRecord(c[Record(id)]).Some? {
      var n := Record(id);
      assert n in c && n.Record? && DecodeRecord(c[n]).Some?;
    }
  }

  /** Read through decoding, old-or-new contents are an old or a new table. */
  lemma {:induction false} TableOldOrNew(before: Contents, c: Contents, id: Text, data: Option<Text>)
    requires OldOrNew(before, c, id, data)
    requires data.Some? ==> DecodeRecord(data.value).Some?
    ensures || Table(c) == Table(before)
            || (At(c, Record(id)) == data &&
                Table(c) == if data.None? then Table(before) - {id}
                            else Table(before)[id := DecodeRecord(data.value).value])
  {
    if At(c, Record(id)) == At(before, Record(id)) {
      TableSame(before, c);
    } else {
      TableChanged(before, c, id, data);
    }
  }

  lemma {:induction false} TableChanged(before: Contents, c: Contents, id: Text, data: Option<Text>)
    requires OldOrNew(before, c, id, data) && At(c, Record(id)) == data
    requires data.Some? ==> DecodeRecord(data.value).Some?
    ensures Table(c) == if data.None? then Table(before) - {id} else Table(before)[id := DecodeRecord(data.value).value]
  {
    hide DecodeRecord, Table;
    var after := if data.None? then Table(before) - {id} else Table(before)[id := DecodeRecord(data.value).value];
    forall m ensures m in Table(c) <==> m in after
             ensures m in Table(c) && m in after ==> Table(c)[m] == after[m]
    {
      TableAt(c, m);
      TableAt(before, m);
      assert m != id ==> At(c, Record(m)) == At(before, Record(m));
    }
    assert Table(c) == after;
  }

  /** At every moment the table is the old one or the new one, never anything between. */
  ghost predicate Atomic(history: seq<Contents>, from: nat, before: map<Text, Stored>, after: map<Text, Stored>) {
    forall i | from <= i < |history| :: Table(history[i]) == before || Table(history[i]) == after
  }

  datatype Answer =
    | Pending                 // the record is on disk
    | PublishedWarning        // the record is on disk, the call raised
    | Refused                 // the call raised, nothing was recorded

  method RecordIntent(s: Store, r: Stored) returns (a: Answer)
    requires Valid(r) && CleanText(r.path)
    modifies s
    ensures old(s.history) <= s.history
    ensures Atomic(s.history, |old(s.history)|, Table(old(s.files)), Table(old(s.files))[r.id := r])
    ensures !a.Refused? ==> Table(s.files) == Table(old(s.files))[r.id := r]
    ensures a.Refused? ==> Table(s.files) == Table(old(s.files))
    ensures r.id in Table(old(s.files)) && Table(old(s.files))[r.id] != r ==> a.Refused?
    ensures s.Calm(old(s.calls)) ==>
      a == if || |Encode(Payload(r))| > 64 * 1024 || |Ids(old(s.files))| > MAX_RECORDS
              || (if Record(r.id) in old(s.files) then DecodeRecord(old(s.files)[Record(r.id)]) != Some(r)
                  else |Ids(old(s.files))| == MAX_RECORDS)
           then Refused else Pending
  {
    hide DecodeRecord, EncodeRecord, Encode, Payload, Valid, CleanText, Table;
    var encoded := EncodeRecord(r);
    EncodeDue(r);
    if encoded.None? {
      return Refused;
    }
    RecordRoundTrip(r);
    var ids := s.Names();
    TableSame(old(s.files), s.files);
    SameIds(old(s.files), s.files);
    forall i | |old(s.history)| <= i < |s.history| ensures Table(s.history[i]) == Table(old(s.files)) {
      TableSame(old(s.files), s.history[i]);
    }
    if ids.None? {
      return Refused;
    }
    TableAt(s.files, r.id);
    ghost var mid, start := s.files, |s.history|;
    if Record(r.id) in s.files {
      if DecodeRecord(s.files[Record(r.id)]) != Some(r) {
        return Refused;
      }
      assert Table(mid) == Table(mid)[r.id := r];
      return Pending;
    }
    if |ids.value| >= MAX_RECORDS {
      return Refused;
    }
    var o := s.Write(r.id, encoded.value, None);
    forall i | start <= i < |s.history|
      ensures Table(s.history[i]) == Table(mid) || Table(s.history[i]) == Table(mid)[r.id := r]
    {
      TableOldOrNew(mid, s.history[i], r.id, encoded);
    }
    if o.NotPublished? {
      TableSame(mid, s.files);
      return Refused;
    }
    TableOldOrNew(mid, s.files, r.id, encoded);
    TableAt(s.files, r.id);
    a := if o.PublishedRaised? then PublishedWarning else Pending;
  }

  function Warned(r: Stored, warning: Text): Stored { r.(warnings := r.warnings + [warning]) }

  /** Appending changes the warnings of one record, keeps the old ones as a prefix
      and everything else as it is. */
  method AppendWarning(s: Store, id: Text, workspace: Text, warning: Text) returns (a: Answer)
    requires id in Table(s.files) ==> CleanText(Table(s.files)[id].path)
    modifies s
    ensures old(s.history) <= s.history
    ensures id !in Table(old(s.files)) ==> a.Refused?
    ensures var before := Table(old(s.files));
            id in before ==>
              var after := before[id := before[id].(warnings := before[id].warnings + [warning])];
              && Atomic(s.history, |old(s.history)|, before, after)
              && Table(s.files) == if a.Refused? then before else after
    ensures id !in Table(old(s.files)) ==> Atomic(s.history, |old(s.history)|, Table(old(s.files)), Table(old(s.files)))
    ensures !a.Refused? ==> Table(old(s.files))[id].workspace == workspace
    ensures !a.Refused? ==> Encodable(warning) && Utf8(warning) <= MAX_WARNING_BYTES
    ensures s.Calm(old(s.calls)) ==>
      a == if && Encodable(warning) && Utf8(warning) <= MAX_WARNING_BYTES && id in Table(old(s.files))
              && Table(old(s.files))[id].workspace == workspace
              && |Encode(Payload(Warned(Table(old(s.files))[id], warning)))| <= 64 * 1024
           then Pending else Refused
  {
    hide DecodeRecord, EncodeRecord, Encode, Payload, Valid, CleanText, Table, IsWarning;
    TableAt(s.files, id);
    WarningIs(warning);
    if !IsWarning(warning) || Record(id) !in s.files {
      return Refused;
    }
    var data := s.files[Record(id)];
    var r := DecodeRecord(data);
    if r.None? || r.value.workspace != workspace {
      return Refused;
    }
    var updated := Warned(r.value, warning);
    WarnedValid(r.value, warning);
    var encoded := EncodeRecord(updated);
    EncodeDue(updated);
    if encoded.None? {
      return Refused;
    }
    RecordRoundTrip(updated);
    ghost var start := |s.history|;
    var o := s.Write(id, encoded.value, Some(data));
    forall i | start <= i < |s.history|
      ensures Table(s.history[i]) == Table(old(s.files)) || Table(s.history[i]) == Table(old(s.files))[id := updated]
    {
      TableOldOrNew(old(s.files), s.history[i], id, encoded);
    }
    if o.NotPublished? {
      TableSame(old(s.files), s.files);
      return Refused;
    }
    TableOldOrNew(old(s.files), s.files, id, encoded);
    TableAt(s.files, id);
    a := if o.PublishedRaised? then PublishedWarning else Pending;
  }

  lemma EncodeDue(r: Stored)
    ensures EncodeRecord(r).Some? <==> |Encode(Payload(r))| <= 64 * 1024
    ensures EncodeRecord(r).Some? ==> EncodeRecord(r).value == Encode(Payload(r))
  {
  }

  lemma WarningIs(s: Text)
    ensures IsWarning(s) <==> Encodable(s) && Utf8(s) <= MAX_WARNING_BYTES
  {
  }

  lemma WarnedValid(r: Stored, warning: Text)
    requires Valid(r) && IsWarning(warning)
    ensures Valid(Warned(r, warning))
  {
    hide IsWarning, IsId, IsIdentity, IsRelative, IsDigest;
  }

  /** Some of the named records are gone; every other one is as it was. */
  ghost predicate Reduced(before: map<Text, Stored>, now: map<Text, Stored>, named: set<Text>, workspace: Text) {
    && now.Keys <= before.Keys
    && (forall id | id in now :: now[id] == before[id])
    && (forall id | id in before && id !in now :: id in named && before[id].workspace == workspace)
  }

  ghost predicate OneLess(before: map<Text, Stored>, now: map<Text, Stored>, id: Text, workspace: Text) {
    now == before || (id in before && before[id].workspace == workspace && now == before - {id})
  }

  lemma ReducedBy(before: map<Text, Stored>, mid: map<Text, Stored>, now: map<Text, Stored>, named: set<Text>,
                  workspace: Text, id: Text)
    requires Reduced(before, mid, named, workspace) && OneLess(mid, now, id, workspace) && id in named
    ensures Reduced(before, now, named, workspace)
  {
  }

  /** One record: removed, skipped because it is missing or another workspace's, or an error. */
  method AcknowledgeOne(s: Store, id: Text, workspace: Text) returns (removed: Option<bool>)
    modifies s
    ensures old(s.history) <= s.history
    ensures forall i | |old(s.history)| <= i < |s.history| ::
              OneLess(Table(old(s.files)), Table(s.history[i]), id, workspace)
    ensures OneLess(Table(old(s.files)), Table(s.files), id, workspace)
    ensures removed == Some(true) ==> id in Table(old(s.files)) && id !in Table(s.files)
    ensures removed == Some(false) ==>
              Table(s.files) == Table(old(s.files)) &&
              (id in Table(s.files) ==> Table(s.files)[id].workspace != workspace)
    ensures old(s.calls) <= s.calls && forall m: Text | m != id :: At(s.files, Record(m)) == At(old(s.files), Record(m))
    ensures s.Calm(old(s.calls)) ==> (removed.None? <==> Record(id) in old(s.files) && id !in Table(old(s.files)))
  {
    hide DecodeRecord, Table, OldOrNew;
    TableAt(s.files, id);
    if Record(id) !in s.files {
      return Some(false);
    }
    var data := s.files[Record(id)];
    var r := DecodeRecord(data);
    if r.None? {
      return None;
    }
    if r.value.workspace != workspace {
      return Some(false);
    }
    var deleted := s.Delete(id, data);
    forall i | |old(s.history)| <= i < |s.history|
      ensures OneLess(Table(old(s.files)), Table(s.history[i]), id, workspace)
    {
      TableOldOrNew(old(s.files), s.history[i], id, None);
    }
    TableOldOrNew(old(s.files), s.files, id, None);
    TableAt(s.files, id);
    return if deleted then Some(true) else None;
  }

  /** Only records that an acknowledgement names, and that belong to its workspace, ever
      go; a normal return means that exactly those are gone. */
  method Acknowledge(s: Store, ids: seq<Text>, workspace: Text) returns (removed: Option<seq<Text>>)
    modifies s
    ensures old(s.history) <= s.history
    ensures forall i | |old(s.history)| <= i < |s.history| ::
              Reduced(Table(old(s.files)), Table(s.history[i]), (set id | id in ids), workspace)
    ensures |ids| > MAX_RECORDS ==> removed.None? && s.files == old(s.files)
    ensures old(s.calls) <= s.calls
    ensures s.Calm(old(s.calls)) ==>
      (removed.Some? <==> |ids| <= MAX_RECORDS
                          && forall id | id in ids && Record(id) in old(s.files) :: id in Table(old(s.files)))
    ensures var before := Table(old(s.files));
            && Reduced(before, Table(s.files), (set id | id in ids), workspace)
            && (removed.Some? ==>
                && (forall id | id in ids && id in before && before[id].workspace == workspace :: id !in Table(s.files))
                && (forall id :: id in removed.value <==> id in before && id !in Table(s.files)))
  {
    hide Table;
    if |ids| > MAX_RECORDS {
      return None;
    }
    var left: set<Text> := set id | id in ids;
    ghost var before, named := Table(s.files), left;
    var list: seq<Text> := [];
    while left != {}
      invariant left <= named && old(s.history) <= s.history && old(s.calls) <= s.calls
      invariant forall id | id in left :: At(s.files, Record(id)) == At(old(s.files), Record(id))
      invariant s.Calm(old(s.calls)) ==>
                  forall id | id in named && id !in left && Record(id) in old(s.files) :: id in before
      invariant Reduced(before, Table(s.files), named, workspace)
      invariant forall i | |old(s.history)| <= i < |s.history| :: Reduced(before, Table(s.history[i]), named, workspace)
      invariant forall id | id in named && id in before && before[id].workspace == workspace ::
                  id in left || id !in Table(s.files)
      invariant forall id :: id in list <==> id in before && id !in Table(s.files)
      invariant forall id | id in left && id in before :: id in Table(s.files)
      decreases left
    {
      var id :| id in left;
      left := left - {id};
      ghost var mid, start := Table(s.files), |s.history|;
      var gone := AcknowledgeOne(s, id, workspace);
      forall i | start <= i < |s.history| ensures Reduced(before, Table(s.history[i]), named, workspace) {
        ReducedBy(before, mid, Table(s.history[i]), named, workspace, id);
      }
      ReducedBy(before, mid, Table(s.files), named, workspace, id);
      if gone.None? {
        return None;
      }
      if gone.value {
        list := list + [id];
      }
    }
    return Some(list);
  }

  /** What the pending check sees: every record of this workspace, or an error. A journal
      with one record that does not decode is never reported as empty. */
  method PendingRecords(s: Store, workspace: Text) returns (found: Option<seq<Stored>>)
    modifies s
    ensures Table(s.files) == Table(old(s.files))
    ensures found.Some? ==>
      && (forall r :: r in found.value <==>
            exists id :: id in Table(s.files) && Table(s.files)[id] == r && r.workspace == workspace)
      && (forall id | Record(id) in s.files :: id in Table(s.files))
    ensures s.Calm(old(s.calls)) ==>
      (found.Some? <==> && |Ids(old(s.files))| <= MAX_RECORDS
                        && forall id | Record(id) in old(s.files) :: id in Table(old(s.files)))
  {
    hide DecodeRecord, Table;
    var ids := s.Names();
    TableSame(old(s.files), s.files);
    SameIds(old(s.files), s.files);
    if ids.None? {
      return None;
    }
    ghost var held := s.files;
    var list: seq<Stored> := [];
    for i := 0 to |ids.value|
      invariant s.files == held
      invariant forall j | 0 <= j < i :: ids.value[j] in Table(s.files)
      invariant forall r :: r in list <==>
                  exists j :: 0 <= j < i && Table(s.files)[ids.value[j]] == r && r.workspace == workspace
    {
      TableAt(s.files, ids.value[i]);
      var r := DecodeRecord(s.files[Record(ids.value[i])]);
      if r.None? {
        return None;
      }
      if r.value.workspace == workspace {
        list := list + [r.value];
      }
    }
    forall id | id in Table(s.files) ensures Record(id) in s.files && id in ids.value { TableAt(s.files, id); }
    assert forall id | Record(id) in s.files :: id in ids.value;
    assert forall id | Record(id) in old(s.files) :: id in Table(old(s.files));
    return Some(list);
  }
}
