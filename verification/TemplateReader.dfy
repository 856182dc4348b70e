/** Reading a printed template back: blank and comment lines are skipped, a
    property is required when the first comment above it says so, and lines with
    a value stand only above the groups, where the printer puts them. */
module TemplateReader {
  import opened Wrappers
  import opened Text
  import opened Json
  import opened CatalogTypes
  import opened Template

  datatype PropDoc = PropDoc(name: string, required: bool)
  datatype GroupDoc = GroupDoc(name: string, props: seq<PropDoc>)
  datatype Doc = Doc(version: string, groups: seq<GroupDoc>)

  // ----- the reader -----

  datatype Line = Blank | Comment | Entry(indent: nat, key: string, rest: string) | Malformed

  function LeadingSpaces(s: string): (n: nat)
    ensures n <= |s|
  {
    if s != "" && s[0] == ' ' then 1 + LeadingSpaces(s[1..]) else 0
  }

  /** The text before the first colon. */
  function Key(s: string): (k: string)
    ensures k <= s && ':' !in k
  {
    if s == "" || s[0] == ':' then "" else [s[0]] + Key(s[1..])
  }

  function Classify(line: string): Line {
    var n := LeadingSpaces(line);
    var t := line[n..];
    if t == "" then Blank
    else if t[0] == '#' then Comment
    else if Key(t) == t then Malformed
    else Entry(n, Key(t), t[|Key(t)| + 1..])
  }

  /** What was read so far, and the first comment since the last entry. */
  datatype Reading = Reading(version: Option<string>, groups: seq<GroupDoc>, comment: Option<string>)

  function WithProp(groups: seq<GroupDoc>, p: PropDoc): seq<GroupDoc>
    requires groups != []
  {
    var last := groups[|groups| - 1];
    groups[|groups| - 1 := last.(props := last.props + [p])]
  }

  function Step(r: Reading, line: string): Option<Reading> {
    match Classify(line)
    case Blank => Some(r)
    case Comment => Some(if r.comment.None? then r.(comment := Some(line)) else r)
    case Malformed => None
    case Entry(indent, key, rest) =>
      if indent == 0 && rest == "" then
        Some(r.(groups := r.groups + [GroupDoc(key, [])], comment := None))
      else if indent == 0 && rest[0] == ' ' && r.groups == [] then
        Some(r.(version := if key == "schemaVersion" then Some(rest[1..]) else r.version, comment := None))
      else if indent == 2 && r.groups != [] then
        var required := r.comment.Some? && FlagText(key, true) <= r.comment.value;
        Some(r.(groups := WithProp(r.groups, PropDoc(key, required)), comment := None))
      else None
  }

  function ReadLines(r: Reading, lines: seq<string>): Option<Reading>
    decreases lines
  {
    if lines == [] then Some(r)
    else
      match Step(r, lines[0])
      case None => None
      case Some(r') => ReadLines(r', lines[1..])
  }

  const NOTHING_READ := Reading(None, [], None)

  function Read(text: string): Option<Doc> {
    match ReadLines(NOTHING_READ, Split(text, '\n'))
    case Some(Reading(Some(version), groups, _)) => Some(Doc(version, groups))
    case _ => None
  }

  /** The version alone, from the first two lines. */
  function ReadVersion(text: string): Option<string> {
    var lines := Split(text, '\n');
    if |lines| < 2 then None
    else
      match ReadLines(NOTHING_READ, lines[..2])
      case None => None
      case Some(r) => r.version
  }

  // ----- what a template should read as -----

  function PropDocs(names: seq<string>, group: Object): seq<PropDoc> {
    seq(|names|, i requires 0 <= i < |names| => PropDoc(names[i], names[i] in Required(group)))
  }

  /** The groups that have a property, each with its ascending properties. */
  ghost function GroupDocs(order: seq<string>, groups: Object): seq<GroupDoc> {
    if order == [] then []
    else
      var last := order[|order| - 1];
      var group := AsObject(Field(groups, last));
      GroupDocs(order[..|order| - 1], groups)
      + if Props(group) == map[] then [] else [GroupDoc(last, PropDocs(AscendingOf(Props(group).Keys), group))]
  }

  ghost function Expected(es: EntrySchema): Doc {
    Doc(es.storageVersion, GroupDocs(GroupOrder(Groups(es).Keys, NodeNames(es.resourceGraph)), Groups(es)))
  }

  predicate Documents(groups: seq<GroupDoc>, g: string, d: PropDoc) {
    exists doc :: doc in groups && doc.name == g && d in doc.props
  }

  lemma {:induction false} GroupDocsMembers(order: seq<string>, groups: Object, g: string, d: PropDoc)
    ensures Documents(GroupDocs(order, groups), g, d) <==>
              var group := AsObject(Field(groups, g));
              g in order && d.name in Props(group) && d.required == (d.name in Required(group))
  {
    if order != [] {
      var front, last := order[..|order| - 1], order[|order| - 1];
      GroupDocsMembers(front, groups, g, d);
      PropDocsMembers(AsObject(Field(groups, last)), d);
      hide PropDocs, Required, Props, AsObject, Field;
      assert order == front + [last];
    }
  }

  lemma PropDocsMembers(group: Object, d: PropDoc)
    ensures d in PropDocs(AscendingOf(Props(group).Keys), group)
       <==> d.name in Props(group) && d.required == (d.name in Required(group))
  {
    var names := AscendingOf(Props(group).Keys);
    var docs := PropDocs(names, group);
    assert d.name in names <==> d.name in Elems(names);
    if d.name in names {
      var i :| 0 <= i < |names| && names[i] == d.name;
      assert docs[i].name == d.name && docs[i] in docs;
    }
  }

  /** A template should name property d of group g exactly when the storage version's
      parameters have it, and flag it required exactly when the group lists it so. */
  lemma ExpectedExact(es: EntrySchema, g: string, d: PropDoc)
    ensures Documents(Expected(es).groups, g, d) <==>
              exists group :: HasGroup(es, g, group) && HasProp(group, d.name)
                           && d.required == ListsRequired(group.fields, d.name)
  {
    hide GroupDocs, Groups, HasGroup, Documents;
    var order := GroupOrder(Groups(es).Keys, NodeNames(es.resourceGraph));
    GroupOrderSound(Groups(es).Keys, NodeNames(es.resourceGraph));
    GroupDocsMembers(order, Groups(es), g, d);
    assert g in order <==> g in Elems(order);
    if g in Groups(es) {
      var group := Groups(es)[g];
      GroupsExact(es, g, group);
      PropsExact(group, d.name);
      RequiredExact(AsObject(group), d.name);
    }
    forall group | HasGroup(es, g, group) ensures g in Groups(es) && Groups(es)[g] == group {
      GroupsExact(es, g, group);
    }
  }

  // ----- names and comments that survive printing -----

  predicate OneLine(s: string) { '\n' !in s }

  predicate KeyOk(key: string) {
    OneLine(key) && ':' !in key && (key == "" || (key[0] != ' ' && key[0] != '#'))
  }

  predicate NamesOk(name: string, group: Object) {
    Props(group) != map[] ==> KeyOk(name) && forall p :: p in Props(group) ==> KeyOk(p)
  }

  /** A line that the reader skips. */
  predicate Quiet(line: string) { Classify(line).Blank? || Classify(line).Comment? }

  predicate AllQuiet(lines: seq<string>) { forall l :: l in lines ==> Quiet(l) }

  /** The lines of a text after its first line break. */
  function Below(s: string): seq<string> { Split(s, '\n')[1..] }

  /** The further lines of a property's comment: below the first line of its
      description and default, and below the first line of its example. */
  function FurtherLines(prop: Object, f: Format): seq<string> {
    Below(DescText(prop) + DefaultText(prop, f))
    + if ExampleLines(prop, f) == [] then [] else Below(ExampleLines(prop, f)[0])
  }

  predicate CommentsQuiet(group: Object, f: Format) {
    forall p :: p in Props(group) ==> AllQuiet(FurtherLines(AsObject(Field(Props(group), p)), f))
  }

  predicate AllNamesOk(es: EntrySchema) {
    forall g :: g in Groups(es) ==> NamesOk(g, AsObject(Groups(es)[g]))
  }

  predicate AllCommentsQuiet(es: EntrySchema, f: Format) {
    forall g :: g in Groups(es) ==> CommentsQuiet(AsObject(Groups(es)[g]), f)
  }

  // ----- single lines -----

  lemma {:induction false} ClassifyKey(key: string, rest: string)
    requires ':' !in key
    ensures Key(key + ":" + rest) == key
  {
    var s := key + ":" + rest;
    if key != "" {
      ClassifyKey(key[1..], rest);
      assert s[1..] == key[1..] + ":" + rest;
    }
  }

  lemma ClassifyEntry(indent: nat, key: string, rest: string)
    requires KeyOk(key) && (indent == 0 || indent == 2)
    ensures Classify((if indent == 0 then "" else "  ") + key + ":" + rest) == Entry(indent, key, rest)
  {
    ClassifyFlat(key, rest);
    var t := key + ":" + rest;
    if indent == 0 {
      assert "" + key + ":" + rest == t;
    } else {
      assert "  " + key + ":" + rest == "  " + t;
      hide KeyOk;
      ClassifyIndented(t, key, rest);
    }
  }

  lemma ClassifyFlat(key: string, rest: string)
    requires KeyOk(key)
    ensures Classify(key + ":" + rest) == Entry(0, key, rest)
  {
    var t := key + ":" + rest;
    ClassifyKey(key, rest);
    hide Key;
    assert t[|key|] == ':' && t[|key| + 1..] == rest;
    assert t[0] != ' ' && t[0] != '#' by {
      assert key != "" ==> t[0] == key[0];
    }
  }

  lemma ClassifyIndented(t: string, key: string, rest: string)
    requires Classify(t) == Entry(0, key, rest)
    ensures Classify("  " + t) == Entry(2, key, rest)
  {
    var line := "  " + t;
    assert line[1..][1..] == t && line[2..] == t;
    assert LeadingSpaces(t) == 0 && LeadingSpaces(line[1..]) == 1;
  }

  lemma ClassifyComment(s: string)
    ensures Classify("  # " + s) == Comment
  {
    var line := "  # " + s;
    assert line[2] == '#' && line[1] == ' ';
    assert LeadingSpaces(line[1..][1..]) == 0;
    assert LeadingSpaces(line[1..]) == 1;
  }

  // ----- from text to lines -----

  /** Printed lines broken at the line breaks inside them. */
  function Broken(lines: seq<string>): seq<string> {
    if lines == [] then [] else Split(lines[0], '\n') + Broken(lines[1..])
  }

  lemma {:induction false} SplitUnlines(lines: seq<string>)
    ensures Split(Unlines(lines), '\n') == Broken(lines) + [""]
  {
    if lines != [] {
      SplitUnlines(lines[1..]);
      assert Unlines(lines) == lines[0] + ['\n'] + Unlines(lines[1..]);
      SplitAt(lines[0], '\n', Unlines(lines[1..]));
    }
  }

  lemma {:induction false} BrokenConcat(a: seq<string>, b: seq<string>)
    ensures Broken(a + b) == Broken(a) + Broken(b)
  {
    hide Split;
    if a == [] {
      assert a + b == b;
    } else {
      BrokenConcat(a[1..], b);
      assert (a + b)[1..] == a[1..] + b;
    }
  }

  lemma BrokenOne(line: string)
    ensures Broken([line]) == Split(line, '\n')
  {
    assert Broken([line][1..]) == [];
  }

  predicate AllOneLine(lines: seq<string>) { forall l :: l in lines ==> OneLine(l) }

  lemma {:induction false} BrokenPlain(lines: seq<string>)
    requires AllOneLine(lines)
    ensures Broken(lines) == lines
  {
    if lines != [] {
      assert OneLine(lines[0]);
      SplitWhole(lines[0], '\n');
      BrokenPlain(lines[1..]);
    }
  }

  lemma HeaderOneLine(version: string)
    requires OneLine(version)
    ensures AllOneLine(HeaderLines(version))
  {
    VersionCommentOneLine();
    assert OneLine(NAME_COMMENT);
    assert OneLine("schemaVersion: ") && OneLine("name: \"\"");
    hide VERSION_COMMENT, NAME_COMMENT;
    var h := HeaderLines(version);
    assert OneLine(h[0]) && OneLine(h[1]) && OneLine(h[2]) && OneLine(h[3]);
  }

  lemma VersionCommentOneLine()
    ensures OneLine(VERSION_COMMENT)
  {
    assert OneLine("# schemaVersion (fixed) \U{2014} ");
    assert OneLine("XRD version this template was ");
    assert OneLine("generated against; leave as-is");
  }

  /** The first line of a property's comment. */
  function FlagLine(name: string, required: bool, prop: Object, f: Format): string {
    FlagText(name, required) + Split(DescText(prop) + DefaultText(prop, f), '\n')[0]
  }

  /** The lines between the first comment line of a property and its entry. */
  function Between(prop: Object, f: Format): seq<string> {
    Below(DescText(prop) + DefaultText(prop, f)) + Broken(ExampleLines(prop, f))
  }

  function EntryLine(name: string): string { "  " + name + ": \"\"" }

  lemma BrokenProp(name: string, required: bool, prop: Object, f: Format)
    requires KeyOk(name)
    ensures Broken(PropLines(name, required, prop, f))
         == [FlagLine(name, required, prop, f)] + Between(prop, f) + [EntryLine(name)]
  {
    var more := DescText(prop) + DefaultText(prop, f);
    var comment, entry := CommentLine(name, required, prop, f), EntryLine(name);
    PropLinesParts(name, required, prop, f);
    PropPartsOneLine(name, required, prop, f);
    hide PropLines, CommentLine, FlagText, DescText, DefaultText, ExampleLines, EntryLine, Split, Broken, KeyOk;
    SplitAfter(FlagText(name, required), '\n', more);
    BrokenParts(comment, ExampleLines(prop, f), entry);
    Associate([FlagLine(name, required, prop, f)], Below(more), Broken(ExampleLines(prop, f)));
  }

  lemma BrokenParts(first: string, middle: seq<string>, last: string)
    requires OneLine(last)
    ensures Broken([first] + middle + [last]) == Split(first, '\n') + Broken(middle) + [last]
  {
    hide Split, Broken;
    BrokenConcat([first] + middle, [last]);
    BrokenConcat([first], middle);
    BrokenOne(first);
    BrokenOne(last);
    SplitWhole(last, '\n');
  }

  lemma PropPartsOneLine(name: string, required: bool, prop: Object, f: Format)
    requires KeyOk(name)
    ensures '\n' !in FlagText(name, required) && '\n' !in EntryLine(name)
    ensures CommentLine(name, required, prop, f) == FlagText(name, required) + (DescText(prop) + DefaultText(prop, f))
  {
    hide DescText, DefaultText;
    assert OneLine(name);
  }

  lemma PropLinesParts(name: string, required: bool, prop: Object, f: Format)
    ensures PropLines(name, required, prop, f)
         == [CommentLine(name, required, prop, f)] + ExampleLines(prop, f) + [EntryLine(name)]
  {}

  // ----- reading the printed lines -----

  lemma {:induction false} ReadConcat(r: Reading, a: seq<string>, b: seq<string>)
    ensures ReadLines(r, a + b)
         == match ReadLines(r, a) case None => None case Some(r') => ReadLines(r', b)
    decreases a
  {
    if a == [] {
      assert a + b == b;
    } else {
      assert (a + b)[1..] == a[1..] + b;
      match Step(r, a[0])
      case None =>
      case Some(r') => ReadConcat(r', a[1..], b);
    }
  }

  lemma ReadOne(r: Reading, line: string)
    ensures ReadLines(r, [line]) == Step(r, line)
  {}

  /** Only the comment of a required property starts as such. */
  lemma FlagRead(name: string, required: bool, more: string)
    ensures FlagText(name, true) <= FlagText(name, required) + more <==> required
  {
    var stem := "  # " + name + " (";
    var n := |stem|;
    var line := FlagText(name, required) + more;
    assert FlagText(name, true)[n] == 'r';
    assert line[n] == if required then 'r' else 'o';
  }

  lemma FlagLineRead(name: string, required: bool, prop: Object, f: Format)
    ensures Classify(FlagLine(name, required, prop, f)) == Comment
    ensures FlagText(name, true) <= FlagLine(name, required, prop, f) <==> required
  {
    var c := FlagLine(name, required, prop, f);
    assert c == "  # " + c[4..];
    ClassifyComment(c[4..]);
    FlagRead(name, required, Split(DescText(prop) + DefaultText(prop, f), '\n')[0]);
  }

  /** How many lines the reader does not skip. */
  function Loud(lines: seq<string>): nat {
    if lines == [] then 0 else (if Quiet(lines[0]) then 0 else 1) + Loud(lines[1..])
  }

  lemma {:induction false} LoudZero(lines: seq<string>)
    ensures Loud(lines) == 0 <==> AllQuiet(lines)
  {
    if lines != [] {
      LoudZero(lines[1..]);
      assert lines == [lines[0]] + lines[1..];
    }
  }

  lemma {:induction false} LoudConcat(a: seq<string>, b: seq<string>)
    ensures Loud(a + b) == Loud(a) + Loud(b)
  {
    if a == [] {
      assert a + b == b;
    } else {
      LoudConcat(a[1..], b);
      assert (a + b)[1..] == a[1..] + b;
    }
  }

  /** Between flag and entry only the further lines can be other than skipped. */
  lemma LoudBetween(prop: Object, f: Format)
    ensures Loud(Between(prop, f)) == Loud(FurtherLines(prop, f))
    ensures Loud(Between(prop, f)) == 0 <==> AllQuiet(FurtherLines(prop, f))
  {
    hide Quiet, Split, DescText, DefaultText;
    var below := Below(DescText(prop) + DefaultText(prop, f));
    var ex := ExampleLines(prop, f);
    LoudConcat(below, Broken(ex));
    if ex != [] {
      LoudConcat(below, Below(ex[0]));
      ExampleFirst(prop, f);
      BrokenOne(ex[0]);
      assert ex == [ex[0]];
      assert Split(ex[0], '\n')[1..] == Below(ex[0]);
    }
    LoudZero(FurtherLines(prop, f));
  }

  lemma ExampleFirst(prop: Object, f: Format)
    requires ExampleLines(prop, f) != []
    ensures Quiet(Split(ExampleLines(prop, f)[0], '\n')[0])
  {
    var e := ExampleLines(prop, f)[0];
    assert e == "  # " + e[4..];
    SplitAfter("  # ", '\n', e[4..]);
    ClassifyComment(Split(e[4..], '\n')[0]);
  }

  lemma {:induction false} SkipQuiet(r: Reading, lines: seq<string>)
    requires r.comment.Some? && AllQuiet(lines)
    ensures ReadLines(r, lines) == Some(r)
  {
    if lines != [] {
      assert Quiet(lines[0]);
      SkipQuiet(r, lines[1..]);
    }
  }

  lemma ReadEntry(r: Reading, comment: string, between: seq<string>, entry: string, name: string, rest: string)
    requires r.groups != [] && r.comment.None?
    requires Classify(comment) == Comment && AllQuiet(between)
    requires Classify(entry) == Entry(2, name, rest)
    ensures ReadLines(r, [comment] + between + [entry])
         == Some(r.(groups := WithProp(r.groups, PropDoc(name, FlagText(name, true) <= comment))))
  {
    var r1 := r.(comment := Some(comment));
    ReadOne(r, comment);
    SkipQuiet(r1, between);
    ReadOne(r1, entry);
    ReadConcat(r, [comment], between);
    ReadConcat(r, [comment] + between, [entry]);
  }

  lemma EntryClassifies(name: string)
    requires KeyOk(name)
    ensures Classify(EntryLine(name)) == Entry(2, name, " \"\"")
  {
    ClassifyEntry(2, name, " \"\"");
    assert EntryLine(name) == "  " + name + ":" + " \"\"";
  }

  lemma ReadProp(r: Reading, name: string, required: bool, prop: Object, f: Format)
    requires KeyOk(name) && r.groups != [] && r.comment.None? && AllQuiet(FurtherLines(prop, f))
    ensures ReadLines(r, Broken(PropLines(name, required, prop, f)))
         == Some(r.(groups := WithProp(r.groups, PropDoc(name, required))))
  {
    hide KeyOk, PropLines, Broken, FlagLine, Between, FurtherLines, Classify, Loud;
    BrokenProp(name, required, prop, f);
    FlagLineRead(name, required, prop, f);
    LoudBetween(prop, f);
    LoudZero(Between(prop, f));
    EntryClassifies(name);
    ReadEntry(r, FlagLine(name, required, prop, f), Between(prop, f), EntryLine(name), name, " \"\"");
  }

  lemma LastGroup(groups: seq<GroupDoc>, name: string, props: seq<PropDoc>, p: PropDoc)
    ensures WithProp(groups + [GroupDoc(name, props)], p) == groups + [GroupDoc(name, props + [p])]
  {}

  predicate QuietNames(names: seq<string>, group: Object, f: Format) {
    forall p :: p in names ==> AllQuiet(FurtherLines(AsObject(Field(Props(group), p)), f))
  }

  lemma {:induction false} ReadProps(r: Reading, name: string, names: seq<string>, group: Object, f: Format)
    requires r.comment.None? && (forall p :: p in names ==> KeyOk(p)) && QuietNames(names, group, f)
    ensures ReadLines(r.(groups := r.groups + [GroupDoc(name, [])]), Broken(PropsLines(names, group, f)))
         == Some(r.(groups := r.groups + [GroupDoc(name, PropDocs(names, group))]))
  {
    hide PropLines, FlagText, Required, Field, AsObject, FurtherLines, AllQuiet, KeyOk, Broken, WithProp;
    var r0 := r.(groups := r.groups + [GroupDoc(name, [])]);
    if names == [] {
      NothingLoud();
      assert PropDocs(names, group) == [];
    } else {
      var front, last := names[..|names| - 1], names[|names| - 1];
      var required := last in Required(group);
      var prop := AsObject(Field(Props(group), last));
      ReadProps(r, name, front, group, f);
      var r1 := r.(groups := r.groups + [GroupDoc(name, PropDocs(front, group))]);
      assert last in names;
      ReadProp(r1, last, required, prop, f);
      BrokenConcat(PropsLines(front, group, f), PropLines(last, required, prop, f));
      ReadConcat(r0, Broken(PropsLines(front, group, f)), Broken(PropLines(last, required, prop, f)));
      assert PropDocs(names, group) == PropDocs(front, group) + [PropDoc(last, required)];
      LastGroup(r.groups, name, PropDocs(front, group), PropDoc(last, required));
    }
  }

  lemma GroupLineClassifies(name: string)
    requires KeyOk(name)
    ensures Classify(name + ":") == Entry(0, name, "") && OneLine(name + ":")
  {
    ClassifyEntry(0, name, "");
    assert "" + name + ":" + "" == name + ":";
  }

  lemma BlankClassifies()
    ensures Classify("") == Blank
  {}

  lemma ReadGroupLine(r: Reading, name: string)
    requires KeyOk(name) && r.comment.None?
    ensures Broken(["", name + ":"]) == ["", name + ":"]
    ensures ReadLines(r, ["", name + ":"]) == Some(r.(groups := r.groups + [GroupDoc(name, [])]))
    ensures Loud(["", name + ":"]) == 1
  {
    hide Classify, ReadLines;
    BlankClassifies();
    GroupLineClassifies(name);
    BrokenPlain(["", name + ":"]);
    ReadOne(r, "");
    ReadOne(r, name + ":");
    ReadConcat(r, [""], [name + ":"]);
    assert [""] + [name + ":"] == ["", name + ":"];
    LoudConcat([""], [name + ":"]);
    assert [""][1..] == [] && [name + ":"][1..] == [];
  }

  lemma ReadGroup(r: Reading, name: string, group: Object, f: Format)
    requires r.comment.None? && NamesOk(name, group) && Props(group) != map[] && CommentsQuiet(group, f)
    ensures ReadLines(r, Broken(GroupLines(name, group, f)))
         == Some(r.(groups := r.groups + [GroupDoc(name, PropDocs(AscendingOf(Props(group).Keys), group))]))
  {
    hide KeyOk, ReadLines, PropsLines, FurtherLines, AllQuiet, Broken, PropDocs;
    var names := AscendingOf(Props(group).Keys);
    assert forall p :: p in names ==> p in Elems(names);
    ReadGroupLine(r, name);
    BrokenConcat(["", name + ":"], PropsLines(names, group, f));
    ReadConcat(r, ["", name + ":"], Broken(PropsLines(names, group, f)));
    ReadProps(r, name, names, group, f);
  }

  lemma {:induction false} ReadGroups(r: Reading, order: seq<string>, groups: Object, f: Format)
    requires r.comment.None?
    requires forall g :: g in order ==>
               NamesOk(g, AsObject(Field(groups, g))) && CommentsQuiet(AsObject(Field(groups, g)), f)
    ensures ReadLines(r, Broken(GroupsLines(order, groups, f)))
         == Some(r.(groups := r.groups + GroupDocs(order, groups)))
  {
    hide PropDocs, PropsLines, PropLines, NamesOk, CommentsQuiet;
    if order == [] {
      assert r.groups + [] == r.groups;
    } else {
      var front, last := order[..|order| - 1], order[|order| - 1];
      var group := AsObject(Field(groups, last));
      ReadGroups(r, front, groups, f);
      var r1 := r.(groups := r.groups + GroupDocs(front, groups));
      BrokenConcat(GroupsLines(front, groups, f), GroupLines(last, group, f));
      ReadConcat(r, Broken(GroupsLines(front, groups, f)), Broken(GroupLines(last, group, f)));
      if Props(group) == map[] {
        assert GroupDocs(order, groups) == GroupDocs(front, groups);
      } else {
        assert last in order;
        ReadGroup(r1, last, group, f);
        assert r.groups + GroupDocs(order, groups)
            == r1.groups + [GroupDoc(last, PropDocs(AscendingOf(Props(group).Keys), group))];
      }
    }
  }

  lemma ReadFour(version: string, h: seq<string>)
    requires |h| == 4 && Classify(h[0]) == Comment && Classify(h[2]) == Comment
    requires Classify(h[1]) == Entry(0, "schemaVersion", " " + version)
    requires Classify(h[3]) == Entry(0, "name", " \"\"")
    ensures ReadLines(NOTHING_READ, h) == Some(Reading(Some(version), [], None))
  {
    var r2 := Reading(Some(version), [], None);
    assert Step(NOTHING_READ, h[0]) == Some(NOTHING_READ.(comment := Some(h[0])));
    assert Step(NOTHING_READ.(comment := Some(h[0])), h[1]) == Some(r2);
    assert Step(r2, h[2]) == Some(r2.(comment := Some(h[2])));
    assert Step(r2.(comment := Some(h[2])), h[3]) == Some(r2);
    assert h[3..] == [h[3]] && h[2..][1..] == h[3..] && h[1..][1..] == h[2..];
    ReadOne(r2.(comment := Some(h[2])), h[3]);
    assert ReadLines(r2, h[2..]) == Some(r2);
    assert ReadLines(NOTHING_READ.(comment := Some(h[0])), h[1..]) == Some(r2);
  }

  lemma HashClassifies(line: string)
    requires line != "" && line[0] == '#'
    ensures Classify(line) == Comment
  {}

  lemma ReadHeader(version: string)
    ensures ReadLines(NOTHING_READ, HeaderLines(version)) == Some(Reading(Some(version), [], None))
  {
    hide Classify, ReadLines;
    var h := HeaderLines(version);
    HashClassifies(h[0]);
    HashClassifies(h[2]);
    ClassifyEntry(0, "schemaVersion", " " + version);
    assert h[1] == "" + "schemaVersion" + ":" + (" " + version);
    ClassifyEntry(0, "name", " \"\"");
    assert h[3] == "" + "name" + ":" + " \"\"";
    ReadFour(version, h);
  }

  /** All lines of a template, read as lines. */
  lemma ReadTemplateLines(es: EntrySchema, f: Format)
    requires OneLine(es.storageVersion) && AllNamesOk(es) && AllCommentsQuiet(es, f)
    ensures ReadLines(NOTHING_READ, Broken(TemplateLines(es, f)))
         == Some(Reading(Some(es.storageVersion), Expected(es).groups, None))
  {
    hide ReadLines, Broken, HeaderLines, GroupsLines, NamesOk, CommentsQuiet;
    var order := GroupOrder(Groups(es).Keys, NodeNames(es.resourceGraph));
    GroupOrderSound(Groups(es).Keys, NodeNames(es.resourceGraph));
    assert forall g :: g in order ==> g in Elems(order);
    var r := Reading(Some(es.storageVersion), [], None);
    BrokenTemplate(es, f);
    ReadHeader(es.storageVersion);
    ReadConcat(NOTHING_READ, HeaderLines(es.storageVersion), Broken(GroupsLines(order, Groups(es), f)));
    ReadGroups(r, order, Groups(es), f);
    assert r.groups + GroupDocs(order, Groups(es)) == GroupDocs(order, Groups(es));
  }

  lemma BrokenTemplate(es: EntrySchema, f: Format)
    requires OneLine(es.storageVersion)
    ensures Broken(TemplateLines(es, f))
         == HeaderLines(es.storageVersion)
          + Broken(GroupsLines(GroupOrder(Groups(es).Keys, NodeNames(es.resourceGraph)), Groups(es), f))
  {
    HeaderOneLine(es.storageVersion);
    BrokenPlain(HeaderLines(es.storageVersion));
    BrokenConcat(HeaderLines(es.storageVersion),
                 GroupsLines(GroupOrder(Groups(es).Keys, NodeNames(es.resourceGraph)), Groups(es), f));
  }

  /** Whatever the rest, the version reads back, up to its first line break. */
  lemma VersionReadsBack(es: EntrySchema, f: Format)
    ensures ReadVersion(Unlines(TemplateLines(es, f))) == Some(Split(es.storageVersion, '\n')[0])
    ensures OneLine(es.storageVersion) ==> Split(es.storageVersion, '\n')[0] == es.storageVersion
  {
    var lines := TemplateLines(es, f);
    var first := Split(es.storageVersion, '\n')[0];
    if OneLine(es.storageVersion) { SplitWhole(es.storageVersion, '\n'); }
    BeginsWithVersion(es, f);
    hide Split, Broken, Unlines, TemplateLines, ReadLines;
    SplitUnlines(lines);
    FirstTwo(es.storageVersion, lines[2..]);
    ReadVersionLine(first);
    assert (Broken(lines) + [""])[..2] == [VERSION_COMMENT, "schemaVersion: " + first];
  }

  lemma BeginsWithVersion(es: EntrySchema, f: Format)
    ensures var lines := TemplateLines(es, f);
            |lines| >= 2 && lines == [VERSION_COMMENT] + ["schemaVersion: " + es.storageVersion] + lines[2..]
  {
    hide GroupsLines, VERSION_COMMENT, NAME_COMMENT;
  }

  lemma ReadVersionLine(version: string)
    ensures ReadLines(NOTHING_READ, [VERSION_COMMENT, "schemaVersion: " + version])
         == Some(Reading(Some(version), [], None))
  {
    var line := "schemaVersion: " + version;
    HashClassifies(VERSION_COMMENT);
    ClassifyEntry(0, "schemaVersion", " " + version);
    assert "" + "schemaVersion" + ":" + (" " + version) == line;
    hide Classify, ReadLines, VERSION_COMMENT;
    ReadOne(NOTHING_READ, VERSION_COMMENT);
    ReadOne(NOTHING_READ.(comment := Some(VERSION_COMMENT)), line);
    ReadConcat(NOTHING_READ, [VERSION_COMMENT], [line]);
    assert [VERSION_COMMENT] + [line] == [VERSION_COMMENT, line];
  }

  lemma FirstTwo(version: string, more: seq<string>)
    ensures [VERSION_COMMENT, "schemaVersion: " + Split(version, '\n')[0]]
         <= Broken([VERSION_COMMENT] + ["schemaVersion: " + version] + more)
  {
    var key := "schemaVersion: ";
    VersionCommentOneLine();
    assert OneLine(key);
    hide Split, Broken, VERSION_COMMENT;
    BrokenConcat([VERSION_COMMENT] + [key + version], more);
    BrokenConcat([VERSION_COMMENT], [key + version]);
    BrokenOne(VERSION_COMMENT);
    SplitWhole(VERSION_COMMENT, '\n');
    BrokenOne(key + version);
    SplitAfter(key, '\n', version);
  }

  // ----- nothing can be planted unnoticed -----

  /** The groups and properties read. */
  function Size(groups: seq<GroupDoc>): nat {
    if groups == [] then 0 else Size(groups[..|groups| - 1]) + 1 + |groups[|groups| - 1].props|
  }

  lemma SizeSnoc(groups: seq<GroupDoc>, g: GroupDoc)
    ensures Size(groups + [g]) == Size(groups) + 1 + |g.props|
  {
    assert (groups + [g])[..|groups|] == groups;
  }

  lemma SizeWithProp(groups: seq<GroupDoc>, p: PropDoc)
    requires groups != []
    ensures WithProp(groups, p) != [] && Size(WithProp(groups, p)) == Size(groups) + 1
  {
    var n := |groups| - 1;
    assert WithProp(groups, p)[..n] == groups[..n];
  }

  /** Below the first group every line that is not skipped adds a group or a property. */
  lemma StepCounts(r: Reading, line: string)
    requires r.groups != [] && Step(r, line).Some?
    ensures Step(r, line).value.groups != []
    ensures Size(Step(r, line).value.groups) == Size(r.groups) + if Quiet(line) then 0 else 1
  {
    hide Classify, Size, FlagText, WithProp;
    if Classify(line).Entry? {
      var key := Classify(line).key;
      SizeSnoc(r.groups, GroupDoc(key, []));
      SizeWithProp(r.groups, PropDoc(key, r.comment.Some? && FlagText(key, true) <= r.comment.value));
    }
  }

  lemma {:induction false} ReadCounts(r: Reading, lines: seq<string>)
    requires r.groups != [] && ReadLines(r, lines).Some?
    ensures Size(ReadLines(r, lines).value.groups) == Size(r.groups) + Loud(lines)
    decreases lines
  {
    hide Step, Quiet, Size;
    if lines != [] {
      StepCounts(r, lines[0]);
      ReadCounts(Step(r, lines[0]).value, lines[1..]);
    }
  }

  /** A property prints one line that is not skipped, and more only by its further lines. */
  lemma LoudProp(name: string, required: bool, prop: Object, f: Format)
    requires KeyOk(name)
    ensures Loud(Broken(PropLines(name, required, prop, f))) >= 1
    ensures Loud(Broken(PropLines(name, required, prop, f))) == 1 <==> AllQuiet(FurtherLines(prop, f))
  {
    hide KeyOk, PropLines, Broken, FlagLine, Between, FurtherLines, Classify, EntryLine, AllQuiet;
    BrokenProp(name, required, prop, f);
    FlagLineRead(name, required, prop, f);
    LoudBetween(prop, f);
    EntryClassifies(name);
    var flag, entry := [FlagLine(name, required, prop, f)], [EntryLine(name)];
    LoudConcat(flag, Between(prop, f));
    LoudConcat(flag + Between(prop, f), entry);
    assert Loud(flag) == 0 && Loud(entry) == 1 by { assert flag[1..] == [] && entry[1..] == []; }
  }

  lemma {:induction false} LoudProps(names: seq<string>, group: Object, f: Format)
    requires forall p :: p in names ==> KeyOk(p)
    ensures Loud(Broken(PropsLines(names, group, f))) >= |names|
    ensures Loud(Broken(PropsLines(names, group, f))) == |names| <==> QuietNames(names, group, f)
  {
    hide KeyOk, PropLines, FurtherLines, AllQuiet, Required;
    if names != [] {
      var front, last := names[..|names| - 1], names[|names| - 1];
      var lines := PropLines(last, last in Required(group), AsObject(Field(Props(group), last)), f);
      LoudProps(front, group, f);
      LoudProp(last, last in Required(group), AsObject(Field(Props(group), last)), f);
      BrokenConcat(PropsLines(front, group, f), lines);
      LoudConcat(Broken(PropsLines(front, group, f)), Broken(lines));
      assert names == front + [last];
    }
  }

  lemma LoudGroup(name: string, group: Object, f: Format)
    requires NamesOk(name, group) && Props(group) != map[]
    ensures Loud(Broken(GroupLines(name, group, f))) >= 1 + |AscendingOf(Props(group).Keys)|
    ensures Loud(Broken(GroupLines(name, group, f))) == 1 + |AscendingOf(Props(group).Keys)|
       <==> CommentsQuiet(group, f)
  {
    hide KeyOk, PropsLines, FurtherLines, AllQuiet, Broken, Loud;
    var names := AscendingOf(Props(group).Keys);
    assert forall p :: p in names <==> p in Elems(names);
    ReadGroupLine(NOTHING_READ, name);
    LoudProps(names, group, f);
    BrokenConcat(["", name + ":"], PropsLines(names, group, f));
    LoudConcat(["", name + ":"], Broken(PropsLines(names, group, f)));
  }

  predicate AllGroupsQuiet(order: seq<string>, groups: Object, f: Format) {
    forall g :: g in order ==> CommentsQuiet(AsObject(Field(groups, g)), f)
  }

  lemma {:induction false} LoudGroups(order: seq<string>, groups: Object, f: Format)
    requires forall g :: g in order ==> NamesOk(g, AsObject(Field(groups, g)))
    ensures Loud(Broken(GroupsLines(order, groups, f))) >= Size(GroupDocs(order, groups))
    ensures Loud(Broken(GroupsLines(order, groups, f))) == Size(GroupDocs(order, groups))
       <==> AllGroupsQuiet(order, groups, f)
  {
    hide NamesOk, PropsLines, Loud, Broken, FurtherLines, AllQuiet, Size;
    if order == [] {
      NothingLoud();
    } else {
      var front, last := order[..|order| - 1], order[|order| - 1];
      var group := AsObject(Field(groups, last));
      LoudGroups(front, groups, f);
      BrokenConcat(GroupsLines(front, groups, f), GroupLines(last, group, f));
      LoudConcat(Broken(GroupsLines(front, groups, f)), Broken(GroupLines(last, group, f)));
      assert order == front + [last];
      if Props(group) != map[] {
        LoudGroup(last, group, f);
        SizeSnoc(GroupDocs(front, groups), GroupDoc(last, PropDocs(AscendingOf(Props(group).Keys), group)));
      } else {
        assert GroupDocs(order, groups) == GroupDocs(front, groups);
        assert GroupLines(last, group, f) == [];
        NothingLoud();
      }
    }
  }

  /** The printed groups begin with the line of one of them. */
  lemma {:induction false} GroupsBegin(order: seq<string>, groups: Object, f: Format) returns (g: string)
    requires GroupsLines(order, groups, f) != []
    ensures g in order && Props(AsObject(Field(groups, g))) != map[]
    ensures ["", g + ":"] <= GroupsLines(order, groups, f)
  {
    var front, last := order[..|order| - 1], order[|order| - 1];
    if GroupsLines(front, groups, f) != [] {
      g := GroupsBegin(front, groups, f);
    } else {
      g := last;
    }
  }

  /** Reading the groups as expected leaves no room for a further line that is not skipped. */
  lemma ReadGroupsQuiet(r: Reading, order: seq<string>, groups: Object, f: Format)
    requires r.groups == [] && r.comment.None?
    requires forall g :: g in order ==> NamesOk(g, AsObject(Field(groups, g)))
    requires var read := ReadLines(r, Broken(GroupsLines(order, groups, f)) + [""]);
             read.Some? && read.value.groups == GroupDocs(order, groups)
    ensures AllGroupsQuiet(order, groups, f)
  {
    hide ReadLines, Broken, Loud, CommentsQuiet, KeyOk, GroupDocs;
    var lines := GroupsLines(order, groups, f);
    LoudGroups(order, groups, f);
    if lines == [] {
      hide GroupsLines;
      NothingLoud();
    } else {
      var g := GroupsBegin(order, groups, f);
      hide GroupsLines;
      var tail := lines[2..];
      assert lines == ["", g + ":"] + tail;
      BrokenConcat(["", g + ":"], tail);
      ReadGroupLine(r, g);
      assert Broken(lines) + [""] == ["", g + ":"] + (Broken(tail) + [""]);
      ReadConcat(r, ["", g + ":"], Broken(tail) + [""]);
      var r1 := r.(groups := r.groups + [GroupDoc(g, [])]);
      ReadCounts(r1, Broken(tail) + [""]);
      SizeSnoc([], GroupDoc(g, []));
      LoudConcat(["", g + ":"], Broken(tail));
      LoudConcat(Broken(tail), [""]);
      NothingLoud();
    }
  }

  lemma NothingLoud()
    ensures Broken([]) == [] && Loud([]) == 0 && Loud([""]) == 0 && Size([]) == 0
  {
    BlankClassifies();
  }

  // ----- only good names can be read -----

  predicate GroupDocOk(g: GroupDoc) { KeyOk(g.name) && forall p :: p in g.props ==> KeyOk(p.name) }

  predicate ReadingOk(r: Reading) {
    (r.version.Some? ==> OneLine(r.version.value)) && forall g :: g in r.groups ==> GroupDocOk(g)
  }

  lemma StepOk(r: Reading, line: string)
    requires ReadingOk(r) && OneLine(line)
    ensures Step(r, line).Some? ==> ReadingOk(Step(r, line).value)
  {
    var n := LeadingSpaces(line);
    var t := line[n..];
    SpacesGone(line);
    if Classify(line).Entry? {
      var key := Classify(line).key;
      assert KeyOk(key) by {
        assert forall c :: c in key ==> c in t;
        assert forall c :: c in t ==> c in line;
        assert key != "" ==> key[0] == t[0];
      }
      assert OneLine(Classify(line).rest);
      if r.groups != [] {
        assert r.groups[|r.groups| - 1] in r.groups;
      }
    }
  }

  lemma {:induction false} SpacesGone(s: string)
    ensures LeadingSpaces(s) < |s| ==> s[LeadingSpaces(s)] != ' '
  {
    if s != "" && s[0] == ' ' { SpacesGone(s[1..]); }
  }

  lemma {:induction false} ReadLinesOk(r: Reading, lines: seq<string>)
    requires ReadingOk(r) && AllOneLine(lines)
    ensures ReadLines(r, lines).Some? ==> ReadingOk(ReadLines(r, lines).value)
    decreases lines
  {
    if lines != [] {
      assert lines[0] in lines;
      StepOk(r, lines[0]);
      match Step(r, lines[0])
      case None =>
      case Some(r') => ReadLinesOk(r', lines[1..]);
    }
  }

  lemma ReadOk(text: string)
    ensures Read(text).Some? ==>
              OneLine(Read(text).value.version) && forall g :: g in Read(text).value.groups ==> GroupDocOk(g)
  {
    SplitParts(text, '\n');
    ReadLinesOk(NOTHING_READ, Split(text, '\n'));
  }

  lemma {:induction false} GroupDocsOk(order: seq<string>, groups: Object, g: string)
    requires forall d :: d in GroupDocs(order, groups) ==> GroupDocOk(d)
    requires g in order
    ensures NamesOk(g, AsObject(Field(groups, g)))
  {
    var front, last := order[..|order| - 1], order[|order| - 1];
    if g != last {
      GroupDocsOk(front, groups, g);
    } else {
      var group := AsObject(Field(groups, last));
      if Props(group) != map[] {
        var names := AscendingOf(Props(group).Keys);
        var d := GroupDoc(last, PropDocs(names, group));
        assert GroupDocs(order, groups)[|GroupDocs(order, groups)| - 1] == d;
        assert GroupDocOk(d);
        forall p | p in Props(group) ensures KeyOk(p) {
          assert p in Elems(names);
          var i :| 0 <= i < |names| && names[i] == p;
          assert PropDocs(names, group)[i].name == p && PropDocs(names, group)[i] in d.props;
        }
      }
    }
  }

  /** The template reads back as the version, the groups that have a property,
      in order, and each group's ascending properties with their flags, exactly
      when the version is one line, every printed name is a plain key, and what
      descriptions, defaults and examples print below their first line is blank
      or a comment. */
  lemma TemplateRoundTrip(es: EntrySchema, f: Format)
    ensures Read(Unlines(TemplateLines(es, f))) == Some(Expected(es))
       <==> OneLine(es.storageVersion) && AllNamesOk(es) && AllCommentsQuiet(es, f)
  {
    hide ReadLines, Broken, Unlines, TemplateLines, Expected, AllNamesOk, AllCommentsQuiet;
    var lines := TemplateLines(es, f);
    SplitUnlines(lines);
    if OneLine(es.storageVersion) && AllNamesOk(es) && AllCommentsQuiet(es, f) {
      ReadTemplateLines(es, f);
      ReadConcat(NOTHING_READ, Broken(lines), [""]);
      ReadOne(Reading(Some(es.storageVersion), Expected(es).groups, None), "");
      ExpectedVersion(es);
    }
    if Read(Unlines(lines)) == Some(Expected(es)) {
      ReadBackIsClean(es, f);
    }
  }

  lemma ExpectedVersion(es: EntrySchema)
    ensures Expected(es).version == es.storageVersion
  {}

  lemma ReadBackIsClean(es: EntrySchema, f: Format)
    requires Read(Unlines(TemplateLines(es, f))) == Some(Expected(es))
    ensures OneLine(es.storageVersion) && AllNamesOk(es) && AllCommentsQuiet(es, f)
  {
    hide ReadLines, Broken, Unlines, HeaderLines, NamesOk, CommentsQuiet, GroupDocs, GroupsLines;
    var groups := Groups(es);
    var order := GroupOrder(groups.Keys, NodeNames(es.resourceGraph));
    GroupOrderSound(groups.Keys, NodeNames(es.resourceGraph));
    assert forall g :: g in order <==> g in Elems(order);
    ReadOk(Unlines(TemplateLines(es, f)));
    forall g | g in groups ensures NamesOk(g, AsObject(groups[g])) {
      GroupDocsOk(order, groups, g);
    }
    SplitUnlines(TemplateLines(es, f));
    BrokenTemplate(es, f);
    ReadHeader(es.storageVersion);
    var body := Broken(GroupsLines(order, groups, f)) + [""];
    assert Broken(TemplateLines(es, f)) + [""] == HeaderLines(es.storageVersion) + body;
    ReadConcat(NOTHING_READ, HeaderLines(es.storageVersion), body);
    ReadGroupsQuiet(Reading(Some(es.storageVersion), [], None), order, groups, f);
  }

  // ----- what a line break in a description can do -----

  /** One group g with one optional property p described by d. */
  function OneProp(g: string, p: string, d: string): Object {
    map[g := Obj(map["properties" := Obj(map[p := Obj(map["description" := Str(d)])])])]
  }

  lemma OnePropLines(g: string, p: string, d: string, names: seq<string>, f: Format)
    requires d != ""
    ensures var groups := OneProp(g, p, d);
            && GroupsLines(GroupOrder(groups.Keys, names), groups, f)
            == ["", g + ":", FlagText(p, false) + " \U{2014} " + d, "  " + p + ": \"\""]
            && GroupDocs(GroupOrder(groups.Keys, names), groups) == [GroupDoc(g, [PropDoc(p, false)])]
  {
    var groups := OneProp(g, p, d);
    var group := AsObject(Field(groups, g));
    OneNames(g, p, d, names);
    OnePropText(g, p, d, f);
    hide FlagText, AscendingOf, Required, PropLines, GroupOrder;
    assert [g][..0] == [] && [p][..0] == [];
    assert PropsLines([p], group, f) == [FlagText(p, false) + " \U{2014} " + d, "  " + p + ": \"\""];
    assert PropDocs([p], group) == [PropDoc(p, false)];
  }

  lemma OneNames(g: string, p: string, d: string, names: seq<string>)
    ensures var groups := OneProp(g, p, d); var group := AsObject(Field(groups, g));
            && GroupOrder(groups.Keys, names) == [g]
            && p in Props(group) && AscendingOf(Props(group).Keys) == [p]
  {
    var groups := OneProp(g, p, d);
    var group := AsObject(Field(groups, g));
    hide Sort, GroupOrder;
    assert Elems([g]) == groups.Keys;
    GroupOrderUnique([g], groups.Keys, names);
    assert Elems([p]) == Props(group).Keys;
    AscendingUnique(AscendingOf(Props(group).Keys), [p]);
  }

  lemma OnePropText(g: string, p: string, d: string, f: Format)
    requires d != ""
    ensures var group := AsObject(Field(OneProp(g, p, d), g));
            && p in Props(group) && Required(group) == {}
            && PropLines(p, false, AsObject(Field(Props(group), p)), f)
            == [FlagText(p, false) + " \U{2014} " + d, "  " + p + ": \"\""]
  {
    hide FlagText;
    var group := AsObject(Field(OneProp(g, p, d), g));
    var prop := AsObject(Field(Props(group), p));
    var line := FlagText(p, false) + " \U{2014} " + d;
    Associate(FlagText(p, false), " \U{2014} ", d);
    assert CommentLine(p, false, prop, f) == line + "" == line;
    assert PropLines(p, false, prop, f) == [line] + [] + ["  " + p + ": \"\""];
  }

  lemma SameText(a: seq<string>, first: string, second: string, b: seq<string>)
    ensures Unlines(a + [first + "\n" + second] + b) == Unlines(a + [first] + [second] + b)
  {
    UnlinesConcat(a + [first + "\n" + second], b);
    UnlinesConcat(a, [first + "\n" + second]);
    UnlinesConcat(a + [first] + [second], b);
    UnlinesConcat(a + [first], [second]);
    UnlinesConcat(a, [first]);
    UnlinesOne(first + "\n" + second);
    UnlinesOne(first);
    UnlinesOne(second);
  }

  function PlantedLines(g: string, p: string, d: string, k: string): seq<string> {
    ["", g + ":", FlagText(p, false) + " \U{2014} " + d, k + ":", "  " + p + ": \"\""]
  }

  lemma PlantedText(es: EntrySchema, g: string, p: string, d: string, k: string, f: Format)
    requires Groups(es) == OneProp(g, p, d + "\n" + k + ":")
    ensures Unlines(TemplateLines(es, f)) == Unlines(HeaderLines(es.storageVersion) + PlantedLines(g, p, d, k))
    ensures Expected(es).groups == [GroupDoc(g, [PropDoc(p, false)])]
  {
    var header := HeaderLines(es.storageVersion);
    var c := FlagText(p, false) + " \U{2014} " + d;
    var entry := "  " + p + ": \"\"";
    OnePropLines(g, p, d + "\n" + k + ":", NodeNames(es.resourceGraph), f);
    var whole := FlagText(p, false) + " \U{2014} " + (d + "\n" + k + ":");
    assert whole == c + "\n" + (k + ":");
    SameText(header + ["", g + ":"], c, k + ":", [entry]);
    assert header + ["", g + ":"] + [whole] + [entry] == TemplateLines(es, f);
    assert header + ["", g + ":"] + [c] + [k + ":"] + [entry] == header + PlantedLines(g, p, d, k);
  }

  lemma PlantedClassify(g: string, p: string, d: string, k: string)
    requires KeyOk(g) && KeyOk(p) && KeyOk(k) && OneLine(d)
    ensures var l := PlantedLines(g, p, d, k);
            && AllOneLine(l)
            && Classify(l[0]) == Blank && Classify(l[1]) == Entry(0, g, "") && Classify(l[2]) == Comment
            && Classify(l[3]) == Entry(0, k, "") && Classify(l[4]) == Entry(2, p, " \"\"")
  {
    hide Classify;
    var l := PlantedLines(g, p, d, k);
    BlankClassifies();
    GroupLineClassifies(g);
    GroupLineClassifies(k);
    EntryClassifies(p);
    assert OneLine(l[2]) by { assert OneLine(FlagText(p, false)); }
    assert OneLine(l[4]);
    assert l[2] == "  # " + l[2][4..];
    ClassifyComment(l[2][4..]);
  }

  lemma ReadPlanted(version: string, l: seq<string>, g: string, p: string, k: string)
    requires |l| == 5 && Classify(l[0]) == Blank && Classify(l[1]) == Entry(0, g, "") && Classify(l[2]) == Comment
    requires Classify(l[3]) == Entry(0, k, "") && Classify(l[4]) == Entry(2, p, " \"\"")
    ensures ReadLines(Reading(Some(version), [], None), l)
         == Some(Reading(Some(version), [GroupDoc(g, []), GroupDoc(k, [PropDoc(p, false)])], None))
  {
    hide Classify, FlagText, ReadLines;
    var r := Reading(Some(version), [], None);
    var r1 := r.(groups := [GroupDoc(g, [])]);
    var r2 := r1.(comment := Some(l[2]));
    var r3 := r.(groups := [GroupDoc(g, []), GroupDoc(k, [])]);
    var r4 := r.(groups := [GroupDoc(g, []), GroupDoc(k, [PropDoc(p, false)])]);
    assert r.groups + [GroupDoc(g, [])] == r1.groups;
    assert r2.groups + [GroupDoc(k, [])] == r3.groups;
    assert WithProp(r3.groups, PropDoc(p, false)) == r4.groups by {
      LastGroup([GroupDoc(g, [])], k, [], PropDoc(p, false));
      assert r3.groups == [GroupDoc(g, [])] + [GroupDoc(k, [])];
      assert [] + [PropDoc(p, false)] == [PropDoc(p, false)];
      assert r4.groups == [GroupDoc(g, [])] + [GroupDoc(k, [PropDoc(p, false)])];
    }
    assert Step(r, l[0]) == Some(r) && Step(r, l[1]) == Some(r1) && Step(r1, l[2]) == Some(r2);
    assert Step(r2, l[3]) == Some(r3) && Step(r3, l[4]) == Some(r4);
    ReadFive(l, r, r, r1, r2, r3, r4);
  }

  lemma ReadFive(l: seq<string>, r: Reading, r0: Reading, r1: Reading, r2: Reading, r3: Reading, r4: Reading)
    requires |l| == 5 && Step(r, l[0]) == Some(r0) && Step(r0, l[1]) == Some(r1) && Step(r1, l[2]) == Some(r2)
    requires Step(r2, l[3]) == Some(r3) && Step(r3, l[4]) == Some(r4)
    ensures ReadLines(r, l) == Some(r4)
  {
    hide Step;
    ReadOne(r3, l[4]);
    assert l[4..] == [l[4]];
    assert l[3..][1..] == l[4..] && l[2..][1..] == l[3..] && l[1..][1..] == l[2..];
    assert ReadLines(r2, l[3..]) == Some(r4);
    assert ReadLines(r1, l[2..]) == Some(r4);
    assert ReadLines(r0, l[1..]) == Some(r4);
  }

  /** A description with a line break plants a group: for every plain g, p and
      k, the description d + "\n" + k + ":" makes the template read as an empty
      group g followed by a group k that holds p. */
  lemma LineBreakPlantsGroup(es: EntrySchema, g: string, p: string, d: string, k: string, f: Format)
    requires KeyOk(g) && KeyOk(p) && KeyOk(k) && OneLine(d) && OneLine(es.storageVersion)
    requires Groups(es) == OneProp(g, p, d + "\n" + k + ":")
    ensures Read(Unlines(TemplateLines(es, f)))
         == Some(Doc(es.storageVersion, [GroupDoc(g, []), GroupDoc(k, [PropDoc(p, false)])]))
    ensures Read(Unlines(TemplateLines(es, f))) != Some(Expected(es))
  {
    var header := HeaderLines(es.storageVersion);
    var l := PlantedLines(g, p, d, k);
    var r := Reading(Some(es.storageVersion), [], None);
    PlantedText(es, g, p, d, k, f);
    PlantedClassify(g, p, d, k);
    HeaderOneLine(es.storageVersion);
    SplitUnlines(header + l);
    BrokenPlain(header + l);
    ReadHeader(es.storageVersion);
    ReadPlanted(es.storageVersion, l, g, p, k);
    ReadConcat(NOTHING_READ, header, l);
    ReadConcat(NOTHING_READ, header + l, [""]);
    ReadOne(r.(groups := [GroupDoc(g, []), GroupDoc(k, [PropDoc(p, false)])]), "");
  }
}
