/** handleTemplate: the order of the groups and the printed text. */
module Template {
  import opened Wrappers
  import opened Text
  import opened Json
  import opened CatalogTypes

  /** fmt's %v of a JSON value and %q of a string. */
  datatype Format = Format(value: Json -> string, quoted: string -> string)

  // ----- the order of the groups -----

  const SHARED := "shared"

  function NodeNames(graph: seq<ResourceGraphNode>): seq<string> {
    seq(|graph|, i requires 0 <= i < |graph| => graph[i].name)
  }

  /** First occurrences, in order, of the names that are keys and not yet seen. */
  function FirstSeen(names: seq<string>, keys: set<string>, seen: set<string>): seq<string> {
    if names == [] then []
    else if names[0] in keys && names[0] !in seen then
      [names[0]] + FirstSeen(names[1..], keys, seen + {names[0]})
    else FirstSeen(names[1..], keys, seen)
  }

  function Leading(keys: set<string>, names: seq<string>): seq<string> {
    var first := if SHARED in keys then [SHARED] else [];
    first + FirstSeen(names, keys, Elems(first))
  }

  ghost function GroupOrder(keys: set<string>, names: seq<string>): seq<string> {
    var leading := Leading(keys, names);
    leading + AscendingOf(keys - Elems(leading))
  }

  function First(names: seq<string>, x: string): nat
    requires x in names
  {
    if names[0] == x then 0 else 1 + First(names[1..], x)
  }

  /** x may stand before y: "shared" before all, graph names by first
      occurrence, then the others alphabetically. */
  predicate Before(names: seq<string>, x: string, y: string) {
    x == SHARED || (y != SHARED &&
      if x in names then y in names ==> First(names, x) <= First(names, y)
      else y !in names && Leq(x, y))
  }

  predicate IsGroupOrder(order: seq<string>, keys: set<string>, names: seq<string>) {
    && Distinct(order)
    && Elems(order) == keys
    && forall i, j :: 0 <= i < j < |order| ==> Before(names, order[i], order[j])
  }

  lemma {:induction false} FirstSeenElems(names: seq<string>, keys: set<string>, seen: set<string>)
    ensures Elems(FirstSeen(names, keys, seen)) == Elems(names) * keys - seen
    ensures Distinct(FirstSeen(names, keys, seen))
  {
    if names != [] {
      var taken := names[0] in keys && names[0] !in seen;
      var seen' := if taken then seen + {names[0]} else seen;
      var rest := FirstSeen(names[1..], keys, seen');
      FirstSeenElems(names[1..], keys, seen');
      assert Elems(names) == {names[0]} + Elems(names[1..]);
      assert forall i :: 0 <= i < |rest| ==> rest[i] in Elems(rest);
      assert Elems([names[0]] + rest) == {names[0]} + Elems(rest);
    }
  }

  /** Positions of a and b in a listing of names, a first. */
  predicate Precedes(names: seq<string>, a: string, b: string) {
    a in names && b in names && First(names, a) < First(names, b)
  }

  lemma PrecedesTail(names: seq<string>, a: string, b: string)
    requires names != [] && a != names[0] && b != names[0]
    ensures Precedes(names[1..], a, b) ==> Precedes(names, a, b)
  {}

  lemma {:induction false} FirstSeenOrdered(names: seq<string>, keys: set<string>, seen: set<string>)
    ensures var r := FirstSeen(names, keys, seen);
            forall i, j :: 0 <= i < j < |r| ==> Precedes(names, r[i], r[j])
  {
    hide Distinct;
    if names != [] {
      var taken := names[0] in keys && names[0] !in seen;
      var seen' := if taken then seen + {names[0]} else seen;
      var rest := FirstSeen(names[1..], keys, seen');
      FirstSeenOrdered(names[1..], keys, seen');
      FirstSeenElems(names[1..], keys, seen');
      forall i | 0 <= i < |rest|
        ensures rest[i] != names[0] && rest[i] in names[1..]
      {
        assert rest[i] in Elems(rest);
      }
      forall i, j | 0 <= i < j < |rest| ensures Precedes(names, rest[i], rest[j]) {
        PrecedesTail(names, rest[i], rest[j]);
      }
      if taken {
        forall j | 0 <= j < |rest| ensures Precedes(names, names[0], rest[j]) {}
        assert FirstSeen(names, keys, seen) == [names[0]] + rest;
      }
    }
  }

  lemma LeadingOrdered(keys: set<string>, names: seq<string>)
    ensures var r := Leading(keys, names);
            && Distinct(r)
            && Elems(r) == keys * (Elems(names) + {SHARED})
            && forall i, j :: 0 <= i < j < |r| ==> Before(names, r[i], r[j])
  {
    var first := if SHARED in keys then [SHARED] else [];
    var rest := FirstSeen(names, keys, Elems(first));
    FirstSeenElems(names, keys, Elems(first));
    FirstSeenOrdered(names, keys, Elems(first));
    assert forall i :: 0 <= i < |rest| ==> rest[i] in Elems(rest);
    assert Elems(first + rest) == Elems(first) + Elems(rest);
  }

  /** The order is a duplicate-free listing of the keys, "shared" first, then
      first occurrences in graph order, then the rest sorted. */
  lemma GroupOrderSound(keys: set<string>, names: seq<string>)
    ensures IsGroupOrder(GroupOrder(keys, names), keys, names)
  {
    var leading := Leading(keys, names);
    var rest := AscendingOf(keys - Elems(leading));
    LeadingOrdered(keys, names);
    assert forall i :: 0 <= i < |leading| ==> leading[i] in Elems(leading);
    forall i | 0 <= i < |rest|
      ensures rest[i] in keys && rest[i] != SHARED && rest[i] !in names && rest[i] !in leading
    {
      assert rest[i] in Elems(rest);
      assert forall x :: x in names <==> x in Elems(names);
    }
    forall i | 0 <= i < |leading| && leading[i] != SHARED ensures leading[i] in names {
      assert leading[i] in Elems(names);
    }
    assert Elems(leading + rest) == Elems(leading) + Elems(rest);
  }

  predicate Unnamed(graph: seq<ResourceGraphNode>, x: string) {
    forall a :: 0 <= a < |graph| ==> graph[a].name != x
  }

  /** A node is named x, and no node before it is named y. */
  predicate NamedBefore(graph: seq<ResourceGraphNode>, x: string, y: string) {
    exists a :: 0 <= a < |graph| && graph[a].name == x && forall b :: 0 <= b < a ==> graph[b].name != y
  }

  /** Which of two groups is printed first, read off the graph itself. */
  lemma PrintedFirst(keys: set<string>, graph: seq<ResourceGraphNode>, i: nat, j: nat)
    requires i < j < |GroupOrder(keys, NodeNames(graph))|
    ensures var order := GroupOrder(keys, NodeNames(graph)); var x, y := order[i], order[j];
            && y != "shared" && x != y && x in keys && y in keys
            && (|| x == "shared" || NamedBefore(graph, x, y)
                || (Unnamed(graph, x) && Unnamed(graph, y) && Leq(x, y)))
  {
    var names := NodeNames(graph);
    var order := GroupOrder(keys, names);
    GroupOrderSound(keys, names);
    hide GroupOrder, Leq;
    var x, y := order[i], order[j];
    assert x in Elems(order) && y in Elems(order);
    assert Before(names, x, y);
    if x != SHARED && x in names {
      FirstIsFirst(names, x);
      var a := First(names, x);
      forall b | 0 <= b < a ensures graph[b].name != y {
        if names[b] == y { FirstIsFirst(names, y); }
      }
      assert graph[a].name == x;
    } else if x != SHARED {
      forall a | 0 <= a < |graph| ensures graph[a].name != x && (y !in names ==> graph[a].name != y) {
        assert names[a] in names;
      }
    }
  }

  lemma {:induction false} FirstIsFirst(names: seq<string>, x: string)
    requires x in names
    ensures First(names, x) < |names| && names[First(names, x)] == x
    ensures forall b :: 0 <= b < First(names, x) ==> names[b] != x
  {
    if names[0] != x { FirstIsFirst(names[1..], x); }
  }

  /** No other listing meets that description. */
  lemma GroupOrderUnique(order: seq<string>, keys: set<string>, names: seq<string>)
    requires IsGroupOrder(order, keys, names)
    ensures order == GroupOrder(keys, names)
  {
    GroupOrderSound(keys, names);
    forall x, y | Before(names, x, y) && Before(names, y, x) ensures x == y {
      if x in names && y in names {
        FirstInjective(names, x, y);
      } else if x !in names && y !in names && x != SHARED {
        LeqAntisymmetric(x, y);
      }
    }
    ListingUnique(order, GroupOrder(keys, names), (x, y) => Before(names, x, y));
  }

  lemma {:induction false} FirstInjective(names: seq<string>, x: string, y: string)
    requires x in names && y in names
    ensures First(names, x) == First(names, y) ==> x == y
  {
    if names[0] != x && names[0] != y { FirstInjective(names[1..], x, y); }
  }

  /** The ordering loops, for any order in which the map yields its keys. */
  method OrderGroups(keys: set<string>, graph: seq<ResourceGraphNode>) returns (ordered: seq<string>)
    ensures ordered == GroupOrder(keys, NodeNames(graph))
  {
    hide Sort, Sorted;
    ghost var names := NodeNames(graph);
    ordered := [];
    var seen: set<string> := {};
    if SHARED in keys {
      ordered := ordered + [SHARED];
      seen := seen + {SHARED};
    }
    assert ordered == if SHARED in keys then [SHARED] else [];
    assert seen == Elems(ordered);
    assert names[0..] == names;
    for n := 0 to |graph|
      invariant seen == Elems(ordered)
      invariant ordered + FirstSeen(names[n..], keys, seen) == Leading(keys, names)
    {
      var name := graph[n].name;
      assert names[n..][0] == name && names[n..][1..] == names[n + 1..];
      if name in keys && name !in seen {
        assert ordered + ([name] + FirstSeen(names[n + 1..], keys, seen + {name}))
            == (ordered + [name]) + FirstSeen(names[n + 1..], keys, seen + {name});
        assert Elems(ordered + [name]) == Elems(ordered) + {name};
        ordered := ordered + [name];
        seen := seen + {name};
      }
    }
    assert ordered == Leading(keys, names);
    var remaining := [];
    var left := keys;
    while left != {}
      invariant left <= keys
      invariant Distinct(remaining) && Elems(remaining) == keys - left - seen
      decreases left
    {
      var name :| name in left;
      left := left - {name};
      if name !in seen {
        assert name !in remaining by { assert name in remaining ==> name in Elems(remaining); }
        assert Elems(remaining + [name]) == Elems(remaining) + {name};
        remaining := remaining + [name];
      }
    }
    SortedUnique(remaining, AscendingOf(keys - seen));
    ordered := ordered + Sort(remaining);
  }

  // ----- what a schema holds -----

  function Params(es: EntrySchema): Object {
    if es.storageVersion in es.versions then es.versions[es.storageVersion] else map[]
  }

  function Groups(es: EntrySchema): Object { AsObject(Field(Params(es), "properties")) }

  function Props(group: Object): Object { AsObject(Field(group, "properties")) }

  function Required(group: Object): set<string> {
    match Field(group, "required")
    case Arr(items) => set item | item in items && item.Str? :: item.text
    case _ => {}
  }

  /** The group's required list names p. */
  predicate ListsRequired(group: Object, p: string) {
    "required" in group && group["required"].Arr? && Str(p) in group["required"].items
  }

  lemma RequiredExact(group: Object, p: string)
    ensures p in Required(group) <==> ListsRequired(group, p)
  {}

  /** The storage version's parameters have the object `group` as the property g. */
  predicate HasGroup(es: EntrySchema, g: string, group: Json) {
    && es.storageVersion in es.versions
    && var params := es.versions[es.storageVersion];
    && "properties" in params && params["properties"].Obj?
    && g in params["properties"].fields && params["properties"].fields[g] == group
  }

  predicate HasProp(group: Json, p: string) {
    && group.Obj? && "properties" in group.fields && group.fields["properties"].Obj?
    && p in group.fields["properties"].fields
  }

  lemma GroupsExact(es: EntrySchema, g: string, group: Json)
    ensures g in Groups(es) && Groups(es)[g] == group <==> HasGroup(es, g, group)
  {}

  lemma PropsExact(group: Json, p: string)
    ensures p in Props(AsObject(group)) <==> HasProp(group, p)
  {}

  // ----- the lines -----

  function FlagText(name: string, required: bool): string {
    "  # " + name + " (" + (if required then "required" else "optional") + ")"
  }

  function DescText(prop: Object): string {
    var desc := AsString(Field(prop, "description"));
    if desc != "" then " \U{2014} " + desc else ""
  }

  function DefaultText(prop: Object, f: Format): string {
    var def := Field(prop, "default");
    if def != Null then " (default: " + f.value(def) + ")" else ""
  }

  function CommentLine(name: string, required: bool, prop: Object, f: Format): string {
    FlagText(name, required) + DescText(prop) + DefaultText(prop, f)
  }

  function ExampleLines(prop: Object, f: Format): seq<string> {
    match Field(prop, "example")
    case Null => []
    case Str(s) => ["  #   example: " + f.quoted(s)]
    case v => ["  #   example: " + f.value(v)]
  }

  function PropLines(name: string, required: bool, prop: Object, f: Format): seq<string> {
    [CommentLine(name, required, prop, f)] + ExampleLines(prop, f) + ["  " + name + ": \"\""]
  }

  function PropsLines(names: seq<string>, group: Object, f: Format): seq<string> {
    if names == [] then []
    else
      var last := names[|names| - 1];
      PropsLines(names[..|names| - 1], group, f)
      + PropLines(last, last in Required(group), AsObject(Field(Props(group), last)), f)
  }

  ghost function GroupLines(name: string, group: Object, f: Format): seq<string> {
    if Props(group) == map[] then []
    else ["", name + ":"] + PropsLines(AscendingOf(Props(group).Keys), group, f)
  }

  ghost function GroupsLines(order: seq<string>, groups: Object, f: Format): seq<string> {
    if order == [] then []
    else
      var last := order[|order| - 1];
      GroupsLines(order[..|order| - 1], groups, f) + GroupLines(last, AsObject(Field(groups, last)), f)
  }

  const VERSION_COMMENT: string :=
    "# schemaVersion (fixed) \U{2014} " + "XRD version this template was " + "generated against; leave as-is"
  const NAME_COMMENT: string := "# name (required) \U{2014} Resource name"

  function HeaderLines(version: string): seq<string> {
    [VERSION_COMMENT,
     "schemaVersion: " + version,
     NAME_COMMENT,
     "name: \"\""]
  }

  ghost function TemplateLines(es: EntrySchema, f: Format): seq<string> {
    HeaderLines(es.storageVersion)
    + GroupsLines(GroupOrder(Groups(es).Keys, NodeNames(es.resourceGraph)), Groups(es), f)
  }

  /** A schema without parameters for its storage version prints the header alone. */
  lemma UnservedPrintsHeader(es: EntrySchema, f: Format)
    requires es.storageVersion !in es.versions
    ensures Groups(es) == map[] && TemplateLines(es, f) == HeaderLines(es.storageVersion)
  {
    assert Groups(es) == map[] && Groups(es).Keys == {};
    var order := GroupOrder(Groups(es).Keys, NodeNames(es.resourceGraph));
    GroupOrderSound(Groups(es).Keys, NodeNames(es.resourceGraph));
    NoElems(order);
  }

  function Unlines(lines: seq<string>): string {
    if lines == [] then "" else lines[0] + "\n" + Unlines(lines[1..])
  }

  lemma {:induction false} UnlinesConcat(a: seq<string>, b: seq<string>)
    ensures Unlines(a + b) == Unlines(a) + Unlines(b)
  {
    if a == [] {
      assert a + b == b;
    } else {
      UnlinesConcat(a[1..], b);
      assert (a + b)[1..] == a[1..] + b;
    }
  }

  lemma UnlinesOne(line: string)
    ensures Unlines([line]) == line + "\n"
  {}

  /** The comment in full: name, flag, a description that is a non-empty string, and
      a default that is not null. */
  lemma CommentText(name: string, required: bool, prop: Object, f: Format)
    ensures CommentLine(name, required, prop, f)
         == "  # " + name + (if required then " (required)" else " (optional)")
          + (if "description" in prop && prop["description"].Str? && prop["description"].text != ""
             then " \U{2014} " + prop["description"].text else "")
          + (if "default" in prop && prop["default"] != Null
             then " (default: " + f.value(prop["default"]) + ")" else "")
  {
    var word := if required then "required" else "optional";
    assert " (" + word + ")" == if required then " (required)" else " (optional)";
    assert FlagText(name, required) == "  # " + name + (" (" + word + ")");
  }

  /** The text of a property: its comment, its example if it has one, its entry. */
  lemma PropertyText(name: string, required: bool, prop: Object, f: Format)
    ensures Unlines(PropLines(name, required, prop, f))
         == CommentLine(name, required, prop, f) + "\n"
          + (if "example" !in prop || prop["example"] == Null then ""
             else if prop["example"].Str? then "  #   example: " + f.quoted(prop["example"].text) + "\n"
             else "  #   example: " + f.value(prop["example"]) + "\n")
          + "  " + name + ": \"\"\n"
  {
    hide CommentLine;
    var comment, examples, entry := CommentLine(name, required, prop, f), ExampleLines(prop, f), "  " + name + ": \"\"";
    UnlinesConcat([comment] + examples, [entry]);
    UnlinesConcat([comment], examples);
    UnlinesOne(comment);
    UnlinesOne(entry);
    if examples != [] {
      assert examples == [examples[0]];
      UnlinesOne(examples[0]);
    }
    assert entry + "\n" == "  " + name + ": \"\"\n";
  }

  /** What the property p of a group holds; nothing when it is no object. */
  predicate IsProp(group: Object, p: string, prop: Object) {
    && "properties" in group && group["properties"].Obj? && p in group["properties"].fields
    && var json := group["properties"].fields[p];
    prop == if json.Obj? then json.fields else map[]
  }

  /** One property after another, each with its own flag and contents. */
  lemma PropsLinesSnoc(names: seq<string>, p: string, group: Object, prop: Object, f: Format)
    requires IsProp(group, p, prop)
    ensures PropsLines(names + [p], group, f)
         == PropsLines(names, group, f) + PropLines(p, ListsRequired(group, p), prop, f)
    ensures PropsLines([], group, f) == []
  {
    RequiredExact(group, p);
    hide Required, ListsRequired, PropLines;
    assert (names + [p])[..|names|] == names;
  }

  /** One group after another: a blank line and its name, then its properties; nothing
      for a group without properties. */
  lemma GroupsLinesSnoc(order: seq<string>, g: string, groups: Object, f: Format)
    requires g in groups
    ensures var group := if groups[g].Obj? then groups[g].fields else map[];
            GroupsLines(order + [g], groups, f) == GroupsLines(order, groups, f) +
              if Props(group) == map[] then []
              else ["", g + ":"] + PropsLines(AscendingOf(Props(group).Keys), group, f)
    ensures GroupsLines([], groups, f) == []
  {
    hide Props, PropsLines;
    assert (order + [g])[..|order|] == order;
  }

  /** Every template begins with these four lines. */
  lemma TemplateBegins(es: EntrySchema, f: Format)
    ensures "# schemaVersion (fixed) \U{2014} " + "XRD version this template was "
          + "generated against; leave as-is" + "\n"
          + ("schemaVersion: " + es.storageVersion + "\n")
          + ("# name (required) \U{2014} Resource name" + "\n")
          + ("name: \"\"" + "\n") <= Unlines(TemplateLines(es, f))
  {
    UnlinesHeader(es.storageVersion);
    hide Unlines, GroupsLines;
    UnlinesConcat(HeaderLines(es.storageVersion),
                  GroupsLines(GroupOrder(Groups(es).Keys, NodeNames(es.resourceGraph)), Groups(es), f));
  }

  // ----- the printer -----

  method RequiredNames(group: Object) returns (required: set<string>)
    ensures required == Required(group)
    ensures forall p :: p in required <==> ListsRequired(group, p)
  {
    forall p ensures p in Required(group) <==> ListsRequired(group, p) { RequiredExact(group, p); }
    hide ListsRequired;
    required := {};
    var list := Field(group, "required");
    if list.Arr? {
      for i := 0 to |list.items|
        invariant required == set item | item in list.items[..i] && item.Str? :: item.text
      {
        assert list.items[..i + 1] == list.items[..i] + [list.items[i]];
        if list.items[i].Str? {
          required := required + {list.items[i].text};
        }
      }
      assert list.items[..|list.items|] == list.items;
    }
  }

  method PrintComment(name: string, required: bool, prop: Object, f: Format) returns (line: string)
    ensures line == CommentLine(name, required, prop, f)
  {
    var desc := AsString(Field(prop, "description"));
    var def := Field(prop, "default");
    var reqWord := "optional";
    if required {
      reqWord := "required";
    }
    line := "  # " + name + " (" + reqWord + ")";
    assert line == FlagText(name, required);
    if desc != "" {
      line := line + (" \U{2014} " + desc);
    }
    assert line == FlagText(name, required) + DescText(prop);
    if def != Null {
      line := line + (" (default: " + f.value(def) + ")");
    }
  }

  method PrintProp(name: string, required: bool, prop: Object, f: Format) returns (b: string)
    ensures b == Unlines(PropLines(name, required, prop, f))
  {
    var line := PrintComment(name, required, prop, f);
    b := line + "\n";
    ghost var ls := [line];
    UnlinesOne(line);
    var example := Field(prop, "example");
    if example != Null {
      var shown;
      if example.Str? {
        shown := "  #   example: " + f.quoted(example.text);
      } else {
        shown := "  #   example: " + f.value(example);
      }
      b := b + (shown + "\n");
      UnlinesOne(shown);
      UnlinesConcat(ls, [shown]);
      ls := ls + [shown];
    }
    assert ls == [line] + ExampleLines(prop, f);
    var entry := "  " + name + ": \"\"";
    b := b + (entry + "\n");
    UnlinesOne(entry);
    UnlinesConcat(ls, [entry]);
  }

  lemma PropsStep(head: seq<string>, names: seq<string>, i: nat, group: Object, f: Format)
    requires i < |names|
    ensures Unlines(head + PropsLines(names[..i + 1], group, f))
         == Unlines(head + PropsLines(names[..i], group, f))
          + Unlines(PropLines(names[i], names[i] in Required(group), AsObject(Field(Props(group), names[i])), f))
  {
    var ls := PropLines(names[i], names[i] in Required(group), AsObject(Field(Props(group), names[i])), f);
    assert names[..i + 1][..i] == names[..i];
    assert head + PropsLines(names[..i + 1], group, f) == (head + PropsLines(names[..i], group, f)) + ls;
    UnlinesConcat(head + PropsLines(names[..i], group, f), ls);
  }

  lemma GroupsStep(head: seq<string>, order: seq<string>, i: nat, groups: Object, f: Format)
    requires i < |order|
    ensures Unlines(head + GroupsLines(order[..i + 1], groups, f))
         == Unlines(head + GroupsLines(order[..i], groups, f))
          + Unlines(GroupLines(order[i], AsObject(Field(groups, order[i])), f))
  {
    var ls := GroupLines(order[i], AsObject(Field(groups, order[i])), f);
    assert order[..i + 1][..i] == order[..i];
    assert head + GroupsLines(order[..i + 1], groups, f) == (head + GroupsLines(order[..i], groups, f)) + ls;
    UnlinesConcat(head + GroupsLines(order[..i], groups, f), ls);
  }

  method PrintGroup(name: string, group: Object, f: Format) returns (b: string)
    ensures b == Unlines(GroupLines(name, group, f))
  {
    var props := Props(group);
    if |props| == 0 {
      return "";
    }
    var required := RequiredNames(group);
    b := "\n" + (name + ":" + "\n");
    ghost var head := [""] + [name + ":"];
    assert b == Unlines(head) by {
      UnlinesConcat([""], [name + ":"]);
      UnlinesOne("");
      UnlinesOne(name + ":");
    }
    var propNames := SortedKeys(props);
    assert head == head + PropsLines(propNames[..0], group, f);
    for i := 0 to |propNames|
      invariant b == Unlines(head + PropsLines(propNames[..i], group, f))
    {
      var p := propNames[i];
      var text := PrintProp(p, p in required, AsObject(Field(props, p)), f);
      PropsStep(head, propNames, i, group, f);
      b := b + text;
    }
    assert propNames[..|propNames|] == propNames;
    assert GroupLines(name, group, f) == head + PropsLines(propNames, group, f);
  }

  /** The handler; None is the 404 for an unknown service. The text does not
      depend on the order in which the maps yield their keys. */
  method HandleTemplate(entrySchemas: map<string, EntrySchema>, serviceId: string, f: Format)
    returns (body: Option<string>)
    ensures body == if serviceId in entrySchemas then Some(Unlines(TemplateLines(entrySchemas[serviceId], f))) else None
  {
    if serviceId !in entrySchemas {
      return None;
    }
    var es := entrySchemas[serviceId];
    var b := VERSION_COMMENT + "\n";
    b := b + ("schemaVersion: " + es.storageVersion + "\n");
    b := b + (NAME_COMMENT + "\n");
    b := b + ("name: \"\"" + "\n");
    ghost var header := HeaderLines(es.storageVersion);
    assert b == Unlines(header) by { UnlinesHeader(es.storageVersion); }
    var groups := Groups(es);
    var ordered := OrderGroups(groups.Keys, es.resourceGraph);
    assert header == header + GroupsLines(ordered[..0], groups, f);
    for i := 0 to |ordered|
      invariant b == Unlines(header + GroupsLines(ordered[..i], groups, f))
    {
      var group := AsObject(Field(groups, ordered[i]));
      var text := PrintGroup(ordered[i], group, f);
      GroupsStep(header, ordered, i, groups, f);
      b := b + text;
    }
    assert ordered[..|ordered|] == ordered;
    return Some(b);
  }

  lemma UnlinesHeader(version: string)
    ensures var h := HeaderLines(version);
            Unlines(h) == h[0] + "\n" + (h[1] + "\n") + (h[2] + "\n") + (h[3] + "\n")
  {
    var h := HeaderLines(version);
    UnlinesOne(h[0]);
    UnlinesOne(h[1]);
    UnlinesOne(h[2]);
    UnlinesOne(h[3]);
    UnlinesConcat(h[..1], h[1..2]);
    UnlinesConcat(h[..2], h[2..3]);
    UnlinesConcat(h[..3], h[3..]);
    assert h[..1] == [h[0]] && h[1..2] == [h[1]] && h[2..3] == [h[2]] && h[3..] == [h[3]];
    assert h[..1] + h[1..2] == h[..2] && h[..2] + h[2..3] == h[..3] && h[..3] + h[3..] == h;
  }
}
