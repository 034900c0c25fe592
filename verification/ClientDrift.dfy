/** The drift gate: operations of the live OpenAPI document against those of the committed schema. */
module ClientDrift {
  import opened Order
  import opened Text
  import opened SchemaScan
  import opened SchemaDocument
  import opened SchemaRoundTrip
  import opened SchemaExact
  import opened GeneratedSchema

  /* ---------- The OpenAPI side ---------- */

  /** The members of a path item, each with whether its value is something other than null. */
  datatype PathItem = NotAnObject | Members(members: seq<(string, bool)>)

  /** The members that are operations, upper-cased. */
  function MemberOps(path: string, members: seq<(string, bool)>): set<string> {
    if members == [] then {}
    else (if Lower(members[0].0) in METHODS && members[0].1 then {OpName(members[0].0, path)} else {})
         + MemberOps(path, members[1..])
  }

  function ItemOps(path: string, item: PathItem): set<string> {
    if item.Members? then MemberOps(path, item.members) else {}
  }

  /** `operations_from_openapi`; a document without paths has the empty list. */
  function OpenApiOps(paths: seq<(string, PathItem)>): set<string> {
    if paths == [] then {} else ItemOps(paths[0].0, paths[0].1) + OpenApiOps(paths[1..])
  }

  method OperationsFromOpenapi(paths: seq<(string, PathItem)>) returns (ops: set<string>)
    ensures ops == OpenApiOps(paths)
  {
    ops := {};
    assert paths[0..] == paths;
    for i := 0 to |paths|
      invariant ops + OpenApiOps(paths[i..]) == OpenApiOps(paths)
    {
      var path, item := paths[i].0, paths[i].1;
      assert paths[i..][1..] == paths[i + 1..];
      if item.NotAnObject? {
        continue;
      }
      ghost var before := ops;
      assert item.members[0..] == item.members;
      for j := 0 to |item.members|
        invariant ops + MemberOps(path, item.members[j..]) == before + ItemOps(path, item)
      {
        var m := item.members[j];
        assert item.members[j..][1..] == item.members[j + 1..];
        if Lower(m.0) !in METHODS {
          continue;
        }
        if !m.1 {
          continue;
        }
        ops := ops + {OpName(m.0, path)};
      }
    }
  }

  /* ---------- The same API on both sides ---------- */

  lemma UpperLower(s: string)
    ensures Upper(Lower(s)) == Upper(s)
  {
    forall i | 0 <= i < |s| ensures Upper(Lower(s))[i] == Upper(s)[i] {}
  }

  lemma {:induction false} MemberOpsAre(path: string, members: seq<(string, bool)>)
    ensures MemberOps(path, members) ==
            set x | x in members && Lower(x.0) in METHODS && x.1 :: OpName(x.0, path)
  {
    if members != [] {
      MemberOpsAre(path, members[1..]);
      assert members == [members[0]] + members[1..];
    }
  }

  /** A member of a path item that is an operation: one of seven methods, in any case, and not null. */
  predicate IsOperation(member: (string, bool)) {
    member.1 && Lower(member.0) in ["get", "post", "put", "patch", "delete", "head", "options"]
  }

  /** The operations of a document are the members of its path items that are operations, each named by
      its method in capitals, a blank, and its path. */
  lemma {:induction false} OpenApiOpsAre(paths: seq<(string, PathItem)>, op: string)
    ensures op in OpenApiOps(paths) <==>
            exists i, x :: 0 <= i < |paths| && paths[i].1.Members? && x in paths[i].1.members && IsOperation(x) &&
              op == Upper(x.0) + " " + paths[i].0
  {
    if paths != [] {
      OpenApiOpsAre(paths[1..], op);
      assert forall i :: 0 <= i < |paths| - 1 ==> paths[1..][i] == paths[i + 1];
      FirstItemOps(paths, op);
    }
  }

  lemma FirstItemOps(paths: seq<(string, PathItem)>, op: string)
    requires paths != []
    ensures op in ItemOps(paths[0].0, paths[0].1) <==>
            paths[0].1.Members? &&
            exists x :: x in paths[0].1.members && IsOperation(x) && op == Upper(x.0) + " " + paths[0].0
  {
    SevenMethods();
    if paths[0].1.Members? {
      MemberOpsAre(paths[0].0, paths[0].1.members);
    }
  }

  lemma SevenMethods()
    ensures forall m :: m in METHODS <==> m in ["get", "post", "put", "patch", "delete", "head", "options"]
  {}

  /** A path item and a schema entry describe the same operations: the same path, and the same
      methods, in whatever case and order. */
  ghost predicate SameItem(path: string, item: PathItem, e: Entry) {
    path == "/" + e.tail && item.Members? &&
    (forall x :: x in item.members && Lower(x.0) in METHODS && x.1 ==> Lower(x.0) in MethodsOf(e.lines, 1)) &&
    forall m :: m in MethodsOf(e.lines, 1) ==> exists x :: x in item.members && Lower(x.0) == m && x.1
  }

  ghost predicate SameApi(paths: seq<(string, PathItem)>, entries: seq<Entry>) {
    |paths| == |entries| && forall i :: 0 <= i < |paths| ==> SameItem(paths[i].0, paths[i].1, entries[i])
  }

  lemma SameItemOps(path: string, item: PathItem, e: Entry)
    requires SameItem(path, item, e) && e.Valid()
    ensures ItemOps(path, item) == BlockOps(e.tail, MethodsOf(e.lines, 1))
  {
    MemberOpsAre(path, item.members);
    MethodsAreSpotted(e.lines, 1);
    forall op | op in ItemOps(path, item) ensures op in BlockOps(e.tail, MethodsOf(e.lines, 1)) {
      var x :| x in item.members && Lower(x.0) in METHODS && x.1 && op == OpName(x.0, path);
      UpperLower(x.0);
      assert OpName(Lower(x.0), path) == op;
    }
    forall op | op in BlockOps(e.tail, MethodsOf(e.lines, 1)) ensures op in ItemOps(path, item) {
      var m :| m in MethodsOf(e.lines, 1) && op == OpName(m, path);
      var x :| x in item.members && Lower(x.0) == m && x.1;
      UpperLower(x.0);
      assert OpName(x.0, path) == op;
    }
  }

  lemma {:induction false} SameOps(paths: seq<(string, PathItem)>, entries: seq<Entry>)
    requires SameApi(paths, entries) && forall e :: e in entries ==> e.Valid()
    ensures OpenApiOps(paths) == Stated(entries)
  {
    if paths != [] {
      assert entries[0] in entries && forall e :: e in entries[1..] ==> e in entries;
      SameItemOps(paths[0].0, paths[0].1, entries[0]);
      SameOps(paths[1..], entries[1..]);
    }
  }

  /** An API and a schema printed for it, with comments whose braces balance: the extractors agree
      exactly when no nested key has the name of a method that its path does not implement. */
  lemma ExtractorsAgree(paths: seq<(string, PathItem)>, header: string, entries: seq<Entry>,
                                           rest: string)
    requires MarkerFirst(header) && SameApi(paths, entries) && (forall e :: e in entries ==> e.Valid())
    requires AllTight(entries)
    ensures SchemaOps(Document(header, entries, rest)) == OpenApiOps(paths) <==> Sheltered(entries)
  {
    ParsePrinted(header, entries, rest);
    SameOps(paths, entries);
  }

  /** With any comments they agree exactly when what is read of the schema is faithful to it, or, if
      no brace is taken for the end of its interface, when there is no operation. */
  lemma ExtractorsDecide(paths: seq<(string, PathItem)>, header: string, entries: seq<Entry>,
                                            rest: string)
    requires MarkerFirst(header) && SameApi(paths, entries) && (forall e :: e in entries ==> e.Valid())
    requires Shown(entries, 1).Some? || Balanced(rest)
    ensures SchemaOps(Document(header, entries, rest)) == OpenApiOps(paths) <==>
            if Shown(entries, 1).Some? then Faithful(entries) else OpenApiOps(paths) == {}
  {
    ParseAny(header, entries, rest);
    SameOps(paths, entries);
  }

  /* ---------- The generated shape ---------- */

  /** The OpenAPI path item a printed path came from. */
  function ItemMembers(slots: seq<Slot>): seq<(string, bool)> {
    if slots == [] then []
    else (if slots[0].Implemented? then [(slots[0].name, true)] else []) + ItemMembers(slots[1..])
  }

  lemma {:induction false} ItemMembersAre(slots: seq<Slot>)
    ensures forall x :: x in ItemMembers(slots) && x.0 in METHODS ==> x.0 in Implements(slots)
    ensures forall m :: m in Implements(slots) ==> (m, true) in ItemMembers(slots) && m in METHODS
  {
    if slots != [] {
      ItemMembersAre(slots[1..]);
    }
  }

  function PrintedAll(specs: seq<PathSpec>): seq<Entry> {
    if specs == [] then [] else [Printed(specs[0])] + PrintedAll(specs[1..])
  }

  function OpenApiOf(specs: seq<PathSpec>): seq<(string, PathItem)> {
    if specs == [] then []
    else [("/" + specs[0].tail, Members(ItemMembers(specs[0].slots) + [("parameters", true)]))] + OpenApiOf(specs[1..])
  }

  lemma LowerIsSame(m: string)
    requires forall i :: 0 <= i < |m| ==> 'a' <= m[i] <= 'z'
    ensures Lower(m) == m
  {}

  lemma {:induction false} MemberNames(slots: seq<Slot>)
    requires forall s :: s in slots ==> SlotPrintable(s)
    ensures forall x :: x in ItemMembers(slots) ==> Lower(x.0) == x.0
  {
    if slots != [] {
      assert slots[0] in slots && forall s :: s in slots[1..] ==> s in slots;
      NameLetters(slots[0].name);
      LowerIsSame(slots[0].name);
      MemberNames(slots[1..]);
    }
  }

  lemma ParametersIsNoMethod()
    ensures "parameters" !in METHODS && Lower("parameters") == "parameters"
  {
    LowerIsSame("parameters");
    if "parameters" in METHODS { MethodsAreShort("parameters"); }
  }

  lemma PrintedSameItem(p: PathSpec)
    requires Printable(p)
    ensures SameItem("/" + p.tail, Members(ItemMembers(p.slots) + [("parameters", true)]), Printed(p))
  {
    var members := ItemMembers(p.slots) + [("parameters", true)];
    PrintedMethods(p);
    ItemMembersAre(p.slots);
    MemberNames(p.slots);
    ParametersIsNoMethod();
    forall m | m in Implements(p.slots) ensures exists x :: x in members && Lower(x.0) == m && x.1 {
      var x := (m, true);
      assert x in members && Lower(x.0) == m;
    }
  }

  lemma {:induction false} PrintedAllSame(specs: seq<PathSpec>)
    requires forall p :: p in specs ==> Printable(p)
    ensures SameApi(OpenApiOf(specs), PrintedAll(specs)) && forall e :: e in PrintedAll(specs) ==> e.Valid()
  {
    if specs != [] {
      assert specs[0] in specs && forall p :: p in specs[1..] ==> p in specs;
      PrintedIsValid(specs[0]);
      PrintedSameItem(specs[0]);
      PrintedAllSame(specs[1..]);
      var a, b := OpenApiOf(specs), PrintedAll(specs);
      forall i | 0 <= i < |a| ensures SameItem(a[i].0, a[i].1, b[i]) {
        if i > 0 { assert SameItem(a[1..][i - 1].0, a[1..][i - 1].1, b[1..][i - 1]); }
      }
    }
  }

  /** The comments of every path close what they open, or at least no more than they open. */
  ghost predicate RemarksBalance(specs: seq<PathSpec>) {
    forall p :: p in specs ==> Balanced(Interior(AllRemarks(p.slots)))
  }

  ghost predicate RemarksStayOpen(specs: seq<PathSpec>) {
    forall p :: p in specs ==> Level(Interior(AllRemarks(p.slots)), 1).Some?
  }

  /** In a printed schema no key is nested, and the comments alone decide about the braces. */
  lemma PrintedAllAre(specs: seq<PathSpec>)
    requires forall p :: p in specs ==> Printable(p)
    ensures forall e :: e in PrintedAll(specs) ==> Spotted(e.lines) == MethodsOf(e.lines, 1)
    ensures AllTight(PrintedAll(specs)) <==> RemarksBalance(specs)
    ensures NoSurplus(PrintedAll(specs)) <==> RemarksStayOpen(specs)
  {
    forall p | p in specs
      ensures Printed(p) in PrintedAll(specs) && Spotted(Printed(p).lines) == MethodsOf(Printed(p).lines, 1)
      ensures Level(Interior(Printed(p).lines), 1) == Level(Interior(AllRemarks(p.slots)), 1)
    {
      PrintedMethods(p);
      RemarksDecide(p);
      PrintedFrom(specs);
    }
    PrintedFrom(specs);
  }

  lemma {:induction false} PrintedFrom(specs: seq<PathSpec>)
    ensures forall e :: e in PrintedAll(specs) ==> exists p :: p in specs && e == Printed(p)
    ensures forall p :: p in specs ==> Printed(p) in PrintedAll(specs)
  {
    if specs != [] {
      PrintedFrom(specs[1..]);
      assert specs == [specs[0]] + specs[1..];
    }
  }

  lemma PrintedSheltered(specs: seq<PathSpec>)
    requires forall p :: p in specs ==> Printable(p)
    ensures Sheltered(PrintedAll(specs))
  {
    PrintedAllAre(specs);
  }

  /** Printing an API as the generator does - stubs, comments and all - and reading it back gives
      the operations of its OpenAPI document, if the braces in its comments balance. */
  lemma GeneratedRoundTrip(specs: seq<PathSpec>, header: string, rest: string)
    requires MarkerFirst(header) && (forall p :: p in specs ==> Printable(p)) && RemarksBalance(specs)
    ensures SchemaOps(Document(header, PrintedAll(specs), rest)) == OpenApiOps(OpenApiOf(specs))
  {
    PrintedAllSame(specs);
    PrintedAllAre(specs);
    PrintedSheltered(specs);
    ExtractorsAgree(OpenApiOf(specs), header, PrintedAll(specs), rest);
  }

  /** With comments that close no more than they open, this is exactly when it does, unless there is
      no operation to be read. */
  lemma {:induction false} GeneratedCommented(specs: seq<PathSpec>, header: string, rest: string)
    requires MarkerFirst(header) && (forall p :: p in specs ==> Printable(p)) && RemarksStayOpen(specs) &&
             Balanced(rest)
    ensures SchemaOps(Document(header, PrintedAll(specs), rest)) == OpenApiOps(OpenApiOf(specs)) <==>
            RemarksBalance(specs) || OpenApiOps(OpenApiOf(specs)) == {}
  {
    PrintedAllSame(specs);
    PrintedAllAre(specs);
    PrintedSheltered(specs);
    ParseCommented(header, PrintedAll(specs), rest);
    SameOps(OpenApiOf(specs), PrintedAll(specs));
  }

  /* ---------- Comparing ---------- */

  datatype Diff = Diff(missing: seq<string>, extra: seq<string>, shared: seq<string>)

  ghost predicate IsDiff(d: Diff, live: set<string>, committed: set<string>) {
    IsSorted(d.missing, live - committed) && IsSorted(d.extra, committed - live) && IsSorted(d.shared, live * committed)
  }

  method DiffOperations(live: set<string>, committed: set<string>) returns (d: Diff)
    ensures IsDiff(d, live, committed)
  {
    var missing := Sorted(live - committed);
    var extra := Sorted(committed - live);
    var shared := Sorted(live * committed);
    d := Diff(missing, extra, shared);
  }

  /** The three lists partition what is live and what is committed, without repetition. */
  lemma DiffPartitions(d: Diff, live: set<string>, committed: set<string>)
    requires IsDiff(d, live, committed)
    ensures forall x :: x in live <==> x in d.missing || x in d.shared
    ensures forall x :: x in committed <==> x in d.extra || x in d.shared
    ensures |d.missing| + |d.shared| == |live| && |d.extra| + |d.shared| == |committed|
  {
    SortedLength(d.missing, live - committed);
    SortedLength(d.extra, committed - live);
    SortedLength(d.shared, live * committed);
    assert live == (live - committed) + live * committed;
    assert committed == (committed - live) + live * committed;
  }

  /* ---------- Judging ---------- */

  datatype Severity = Warn | Fail

  datatype Finding = SchemaMissing | Operations(severity: Severity, sample: seq<string>, total: nat)

  datatype Observation = NoSchema | Compared(diff: Diff)

  function FirstFifty(l: seq<string>): (r: seq<string>)
    ensures r <= l && |r| == if |l| < 50 then |l| else 50
  {
    if |l| <= 50 then l else l[..50]
  }

  predicate OnlyWarnings(findings: seq<Finding>) {
    forall i :: 0 <= i < |findings| ==> findings[i].Operations? && findings[i].severity == Warn
  }

  /** `judge`: a missing schema and missing operations are errors, extra operations a warning. */
  method Judge(o: Observation) returns (findings: seq<Finding>)
    ensures o.NoSchema? ==> findings == [SchemaMissing]
    ensures o.Compared? ==>
              findings ==
              (if o.diff.missing == [] then []
               else [Operations(Fail, FirstFifty(o.diff.missing), |o.diff.missing|)]) +
              (if o.diff.extra == [] then []
               else [Operations(Warn, FirstFifty(o.diff.extra), |o.diff.extra|)])
    ensures findings == [] <==> o.Compared? && o.diff.missing == [] && o.diff.extra == []
    ensures OnlyWarnings(findings) <==> o.Compared? && o.diff.missing == []
  {
    findings := [];
    if o.NoSchema? {
      findings := findings + [SchemaMissing];
      assert findings[0] == SchemaMissing;
      return;
    }
    if o.diff.missing != [] {
      findings := findings + [Operations(Fail, FirstFifty(o.diff.missing), |o.diff.missing|)];
      assert findings[0].severity == Fail;
    }
    if o.diff.extra != [] {
      findings := findings + [Operations(Warn, FirstFifty(o.diff.extra), |o.diff.extra|)];
    }
    if o.diff.missing != [] {
      assert findings[0] == Operations(Fail, FirstFifty(o.diff.missing), |o.diff.missing|);
    }
  }

  /** One tick of the loop: no finding exactly when a schema is committed and states the live
      operations; no error exactly when it states at least those. */
  method Tick(paths: seq<(string, PathItem)>, committed: Option<string>) returns (findings: seq<Finding>)
    ensures findings == [] <==> committed.Some? && OpenApiOps(paths) == SchemaOps(committed.value)
    ensures OnlyWarnings(findings) <==> committed.Some? && OpenApiOps(paths) <= SchemaOps(committed.value)
  {
    if committed.None? {
      findings := Judge(NoSchema);
      return;
    }
    var live := OperationsFromOpenapi(paths);
    var ops := OperationsFromSchemaDts(committed.value);
    var d := DiffOperations(live, ops);
    findings := Judge(Compared(d));
    EmptyList(d.missing, live - ops);
    EmptyList(d.extra, ops - live);
    SetDifference(live, ops);
  }

  lemma SetDifference(a: set<string>, b: set<string>)
    ensures a - b == {} <==> a <= b
    ensures a - b == {} && b - a == {} <==> a == b
  {
    assert a <= b ==> a - b == {};
    assert a - b == {} ==> forall x :: x in a ==> x in b || x in a - b;
    assert b - a == {} ==> forall x :: x in b ==> x in a || x in b - a;
  }

  lemma EmptyList(l: seq<string>, s: set<string>)
    requires IsSorted(l, s)
    ensures l == [] <==> s == {}
  {
    if l != [] {
      assert l[0] in l;
    }
  }
}
