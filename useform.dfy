/** The form hook's validation glue: grouping a schema's issues by field
    (`mapErrorFromZodIssue`), the per-field validator, and the decisions
    `onFinish` and `onChange` take. The form instance and the submit
    callback are observed through the effects they receive. */
module FormErrors {
  import opened Wrappers
  import opened Strings

  /** A validation issue: the path of the offending field and a message. */
  datatype ZodIssue = ZodIssue(path: seq<string>, message: string)

  /** One key of the error map with its messages; the map keeps its keys in
      insertion order. */
  datatype Entry = Entry(key: string, messages: seq<string>)

  /** `issue.path.join('.')`. */
  function KeyOf(issue: ZodIssue): string {
    Join(issue.path, '.')
  }

  /** Where the key sits in the map, if it is there. */
  function IndexOfKey(m: seq<Entry>, key: string): (r: Option<nat>)
    ensures r.Some? ==> r.value < |m| && m[r.value].key == key &&
                        forall j :: 0 <= j < r.value ==> m[j].key != key
    ensures r.None? ==> forall j :: 0 <= j < |m| ==> m[j].key != key
    decreases |m|
  {
    if m == [] then None
    else if m[0].key == key then Some(0)
    else
      var r := IndexOfKey(m[1..], key);
      assert forall j :: 1 <= j < |m| ==> m[j] == m[1..][j - 1];
      if r.Some? then Some(r.value + 1) else None
  }

  /** `errorMap[key]`, with a missing key read as no messages. */
  function Lookup(m: seq<Entry>, key: string): seq<string> {
    var i := IndexOfKey(m, key);
    if i.Some? then m[i.value].messages else []
  }

  /** One step of the reduce: a new key starts a list, a known one grows. */
  function Record(m: seq<Entry>, key: string, message: string): seq<Entry> {
    var i := IndexOfKey(m, key);
    if i.None? then m + [Entry(key, [message])]
    else m[i.value := Entry(key, m[i.value].messages + [message])]
  }

  /** The map the reduce builds from the issues. */
  function ErrorMapOf(issues: seq<ZodIssue>): seq<Entry> {
    if issues == [] then []
    else
      var last := issues[|issues| - 1];
      Record(ErrorMapOf(issues[..|issues| - 1]), KeyOf(last), last.message)
  }

  /** The reference: the messages of the issues on a key, in issue order. */
  function MessagesFor(issues: seq<ZodIssue>, key: string): (r: seq<string>)
    ensures |r| <= |issues|
  {
    if issues == [] then []
    else
      var last := issues[|issues| - 1];
      MessagesFor(issues[..|issues| - 1], key) + (if KeyOf(last) == key then [last.message] else [])
  }

  predicate DistinctKeys(m: seq<Entry>) {
    forall i, j :: 0 <= i < j < |m| ==> m[i].key != m[j].key
  }

  predicate NoEmptyEntry(m: seq<Entry>) {
    forall i :: 0 <= i < |m| ==> m[i].messages != []
  }

  function TotalMessages(m: seq<Entry>): nat {
    if m == [] then 0 else TotalMessages(m[..|m| - 1]) + |m[|m| - 1].messages|
  }

  /** `mapErrorFromZodIssue(issues)`: the reduce over the issues, growing
      the accumulator in place. */
  method MapErrorFromZodIssue(issues: seq<ZodIssue>) returns (obj: seq<Entry>)
    ensures obj == ErrorMapOf(issues)
    ensures forall key :: Lookup(obj, key) == MessagesFor(issues, key)
  {
    obj := [];
    for n := 0 to |issues|
      invariant obj == ErrorMapOf(issues[..n])
    {
      var issue := issues[n];
      var fieldName := Join(issue.path, '.');
      var i := IndexOfKey(obj, fieldName);
      if i.None? {
        obj := obj + [Entry(fieldName, [issue.message])];
      } else {
        obj := obj[i.value := Entry(fieldName, obj[i.value].messages + [issue.message])];
      }
      assert issues[..n + 1][..n] == issues[..n];
    }
    assert issues[..|issues|] == issues;
    forall key ensures Lookup(obj, key) == MessagesFor(issues, key) {
      ErrorMapLookup(issues, key);
    }
  }

  /** The first index holding the key is the only answer `IndexOfKey`
      can give. */
  lemma {:induction false} IndexOfKeyIs(m: seq<Entry>, key: string, r: Option<nat>)
    requires r.Some? ==> r.value < |m| && m[r.value].key == key &&
                         forall j :: 0 <= j < r.value ==> m[j].key != key
    requires r.None? ==> forall j :: 0 <= j < |m| ==> m[j].key != key
    ensures IndexOfKey(m, key) == r
    decreases |m|
  {
    if m != [] && m[0].key != key {
      var r' := if r.Some? then Some(r.value - 1) else None;
      forall j | 0 <= j < |m| - 1
        ensures m[1..][j] == m[j + 1]
      {
      }
      IndexOfKeyIs(m[1..], key, r');
    }
  }

  /** A key's index is fixed by the keys alone. */
  lemma SameKeysSameIndex(m: seq<Entry>, m': seq<Entry>, key: string)
    requires |m| == |m'| && forall j :: 0 <= j < |m| ==> m[j].key == m'[j].key
    ensures IndexOfKey(m, key) == IndexOfKey(m', key)
  {
    IndexOfKeyIs(m', key, IndexOfKey(m, key));
  }

  lemma AppendIndex(m: seq<Entry>, e: Entry, key: string)
    ensures IndexOfKey(m + [e], key) ==
            if IndexOfKey(m, key).Some? then IndexOfKey(m, key)
            else if e.key == key then Some(|m|) else None
  {
    forall j | 0 <= j < |m|
      ensures (m + [e])[j] == m[j]
    {
    }
    assert (m + [e])[|m|] == e;
    IndexOfKeyIs(m + [e], key, if IndexOfKey(m, key).Some? then IndexOfKey(m, key)
                               else if e.key == key then Some(|m|) else None);
  }

  /** Recording a message adds it to its key's list and to no other. */
  lemma RecordLookup(m: seq<Entry>, key: string, message: string, k: string)
    ensures Lookup(Record(m, key, message), k) == Lookup(m, k) + (if k == key then [message] else [])
  {
    var i := IndexOfKey(m, key);
    var m' := Record(m, key, message);
    if i.None? {
      AppendIndex(m, Entry(key, [message]), k);
      if IndexOfKey(m, k).Some? {
        assert m'[IndexOfKey(m, k).value] == m[IndexOfKey(m, k).value];
      }
    } else {
      SameKeysSameIndex(m, m', k);
    }
  }

  /** The map records, under each key, exactly the messages of the issues
      on that key, in issue order. */
  lemma {:induction false} ErrorMapLookup(issues: seq<ZodIssue>, key: string)
    ensures Lookup(ErrorMapOf(issues), key) == MessagesFor(issues, key)
    decreases |issues|
  {
    if issues != [] {
      var last := issues[|issues| - 1];
      ErrorMapLookup(issues[..|issues| - 1], key);
      RecordLookup(ErrorMapOf(issues[..|issues| - 1]), KeyOf(last), last.message, key);
    }
  }

  lemma {:induction false} TotalUpdate(m: seq<Entry>, i: nat, e: Entry)
    requires i < |m|
    ensures TotalMessages(m[i := e]) + |m[i].messages| == TotalMessages(m) + |e.messages|
    decreases |m|
  {
    var m' := m[i := e];
    assert m'[..|m| - 1] == if i == |m| - 1 then m[..|m| - 1] else m[..|m| - 1][i := e];
    if i < |m| - 1 {
      TotalUpdate(m[..|m| - 1], i, e);
    }
  }

  lemma RecordKeepsShape(m: seq<Entry>, key: string, message: string)
    requires DistinctKeys(m) && NoEmptyEntry(m)
    ensures var m' := Record(m, key, message);
            DistinctKeys(m') && NoEmptyEntry(m') && TotalMessages(m') == TotalMessages(m) + 1
  {
    var i := IndexOfKey(m, key);
    if i.None? {
      assert Record(m, key, message)[..|m|] == m;
    } else {
      TotalUpdate(m, i.value, Entry(key, m[i.value].messages + [message]));
    }
  }

  /** Each key appears once, no key holds an empty list, and the lists
      hold one message per issue altogether. */
  lemma {:induction false} ErrorMapShape(issues: seq<ZodIssue>)
    ensures var m := ErrorMapOf(issues);
            DistinctKeys(m) && NoEmptyEntry(m) && TotalMessages(m) == |issues|
    decreases |issues|
  {
    if issues != [] {
      var last := issues[|issues| - 1];
      ErrorMapShape(issues[..|issues| - 1]);
      RecordKeepsShape(ErrorMapOf(issues[..|issues| - 1]), KeyOf(last), last.message);
    }
  }

  /** A key with messages is the key of some issue. */
  lemma {:induction false} MessagesForSource(issues: seq<ZodIssue>, key: string)
    requires MessagesFor(issues, key) != []
    ensures exists j :: 0 <= j < |issues| && KeyOf(issues[j]) == key
    decreases |issues|
  {
    var last := issues[|issues| - 1];
    if KeyOf(last) != key {
      MessagesForSource(issues[..|issues| - 1], key);
      var j :| 0 <= j < |issues| - 1 && KeyOf(issues[..|issues| - 1][j]) == key;
      assert issues[..|issues| - 1][j] == issues[j];
    }
  }

  /** What a schema parse ends in. */
  datatype ParseOutcome = Parsed | ZodFailure(issues: seq<ZodIssue>) | OtherFailure

  /** The validator of one field: the message it throws, if any. */
  function ZodValidator(outcome: ParseOutcome, field: string): (thrown: Option<string>)
    ensures thrown.Some? <==> outcome.ZodFailure? && MessagesFor(outcome.issues, field) != []
    ensures thrown.Some? ==> thrown.value == Last(MessagesFor(outcome.issues, field))
  {
    match outcome
    case ZodFailure(issues) =>
      var messages := Lookup(ErrorMapOf(issues), field);
      ErrorMapLookup(issues, field);
      if |messages| > 0 then Some(messages[|messages| - 1]) else None
    case _ => None
  }

  function Last(s: seq<string>): string
    requires s != []
  {
    s[|s| - 1]
  }

  /** A field as the form sees it: its name path and its errors. */
  datatype FieldData = FieldData(name: seq<string>, errors: seq<string>)

  /** What `onFinish` does, in order. */
  datatype Effect<D> = SetFields(fields: seq<FieldData>) | Submit(data: Option<D>, issues: Option<seq<ZodIssue>>)

  /** `Object.keys(errorMap).map(...)`: the key split back on '.'. */
  function FieldsOf(m: seq<Entry>): (fields: seq<FieldData>)
    ensures |fields| == |m|
  {
    seq(|m|, i requires 0 <= i < |m| => FieldData(Split(m[i].key, '.'), m[i].messages))
  }

  /** `onFinish(data)`. A rejection that carries no issues makes the error
      handler itself fail, so nothing further happens. */
  function OnFinish<D>(hasSchema: bool, outcome: ParseOutcome, data: D): (effects: seq<Effect<D>>)
    ensures !hasSchema || outcome.Parsed? ==> effects == [Submit(Some(data), None)]
    ensures hasSchema && outcome.OtherFailure? ==> effects == []
    ensures hasSchema && outcome.ZodFailure? ==>
              |effects| == 2 && effects[0].SetFields? &&
              |effects[0].fields| == |ErrorMapOf(outcome.issues)| &&
              effects[1] == Submit(None, Some(outcome.issues))
  {
    if !hasSchema then [Submit(Some(data), None)]
    else
      match outcome
      case Parsed => [Submit(Some(data), None)]
      case ZodFailure(issues) => [SetFields(FieldsOf(ErrorMapOf(issues))), Submit(None, Some(issues))]
      case OtherFailure => []
  }

  /** When no path segment holds a '.' and no path is empty, every field
      set on failure names the path of an issue and carries exactly that
      path's messages, in issue order. */
  lemma FieldsNameIssuePaths(issues: seq<ZodIssue>, i: int)
    requires forall j :: 0 <= j < |issues| ==> |issues[j].path| >= 1
    requires forall j, s :: 0 <= j < |issues| && 0 <= s < |issues[j].path| ==> '.' !in issues[j].path[s]
    requires 0 <= i < |ErrorMapOf(issues)|
    ensures var f := FieldsOf(ErrorMapOf(issues))[i];
            (exists j :: 0 <= j < |issues| && f.name == issues[j].path) &&
            f.errors == MessagesFor(issues, Join(f.name, '.'))
  {
    var m := ErrorMapOf(issues);
    var key := m[i].key;
    ErrorMapShape(issues);
    assert IndexOfKey(m, key) == Some(i);
    ErrorMapLookup(issues, key);
    MessagesForSource(issues, key);
    var j :| 0 <= j < |issues| && KeyOf(issues[j]) == key;
    SplitJoin(issues[j].path, '.');
    JoinSplit(key, '.');
  }

  /** The first field whose name contains every part, if any. */
  function FindField(fields: seq<FieldData>, parts: seq<string>): (r: Option<nat>)
    ensures r.Some? ==> r.value < |fields| && NamesAll(fields[r.value], parts) &&
                        forall j :: 0 <= j < r.value ==> !NamesAll(fields[j], parts)
    ensures r.None? ==> forall j :: 0 <= j < |fields| ==> !NamesAll(fields[j], parts)
    decreases |fields|
  {
    if fields == [] then None
    else if NamesAll(fields[0], parts) then Some(0)
    else
      var r := FindField(fields[1..], parts);
      assert forall j :: 1 <= j < |fields| ==> fields[j] == fields[1..][j - 1];
      if r.Some? then Some(r.value + 1) else None
  }

  /** `fieldName.every(n => err.name.includes(n))`. */
  predicate NamesAll(f: FieldData, parts: seq<string>) {
    forall k :: 0 <= k < |parts| ==> parts[k] in f.name
  }

  /** `onChange`: the `setFields` call it makes, if any. The input's id is
      split on '_'; the first field naming every part is looked at, and only
      if it has errors are the errors of that name cleared. */
  function OnChange(id: string, fields: seq<FieldData>): (cleared: Option<FieldData>)
    ensures cleared.Some? ==> cleared.value == FieldData(Split(id, '_'), [])
    ensures cleared.Some? <==>
              exists i :: 0 <= i < |fields| && NamesAll(fields[i], Split(id, '_')) &&
                          fields[i].errors != [] &&
                          forall j :: 0 <= j < i ==> !NamesAll(fields[j], Split(id, '_'))
  {
    var fieldName := Split(id, '_');
    var found := FindField(fields, fieldName);
    var errors := if found.Some? then fields[found.value].errors else [];
    if |errors| > 0 then Some(FieldData(fieldName, [])) else None
  }
}
