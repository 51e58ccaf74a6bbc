/** Documents, how they are written down, and the proof that the parser reads them back. */
module ConfigRoundTrip {
  import opened ConfigKeys
  import opened ConfigParser
  import opened Text

  /** How a "key: value" is written: the blanks before the value, its quotes, and what follows it. */
  datatype Style = Style(gap: string, quoted: bool, tail: string)

  datatype Entry = Entry(indent: nat, field: Field, style: Style)

  /** A list element; its first entry is on the dash line, the others are on lines of their own. */
  datatype Record = Record(first: Entry, rest: seq<Entry>)

  datatype Node =
    | Remark(text: string)
    | Scalar(field: Field, style: Style)
    | Section(key: string, tail: string, indent: nat, body: seq<Node>)
    | Records(key: string, tail: string, indent: nat, items: seq<Record>)

  // ----- which documents the format can carry -----

  const OUTER: set<char> := {' ', '\t', '\r', '\n', '"'}

  /** White space, and after it nothing or a comment. */
  predicate TailOk(tail: string) {
    Only(Uncommented(tail), WHITESPACE) && '\n' !in tail
  }

  predicate KeyOk(key: string) {
    key != "" && Bare(key, OUTER) && !IsDash(key) && ':' !in key && '#' !in key && '\n' !in key
  }

  predicate ValueOk(value: string) {
    Bare(value, OUTER) && '#' !in value && '\n' !in value
  }

  predicate FieldOk(f: Field, style: Style) {
    KeyOk(f.key) && ValueOk(f.value) && TailOk(style.tail) && Only(style.gap, BLANKS)
    && (f.value == "" && !style.quoted ==> style.gap == "")
  }

  predicate RecordOk(r: Record, indent: nat) {
    FieldOk(r.first.field, r.first.style)
    && forall e | e in r.rest :: indent < e.indent && FieldOk(e.field, e.style)
  }

  /** Children are indented deeper than their section's header; list items at least as deep as theirs. */
  predicate NodeOk(node: Node, indent: nat)
    decreases node
  {
    match node
    case Remark(text) => TailOk(text)
    case Scalar(f, style) => FieldOk(f, style) && (f.value != "" || style.quoted)
    case Section(key, tail, inner, body) =>
      KeyOk(key) && TailOk(tail) && indent < inner && forall n | n in body :: NodeOk(n, inner)
    case Records(key, tail, inner, items) =>
      KeyOk(key) && TailOk(tail) && indent <= inner && forall r | r in items :: RecordOk(r, inner)
  }

  predicate NodesOk(nodes: seq<Node>, indent: nat) {
    forall n | n in nodes :: NodeOk(n, indent)
  }

  // ----- writing -----

  function Shown(f: Field, style: Style): string {
    f.key + ":" + style.gap + (if style.quoted then "\"" + f.value + "\"" else f.value)
  }

  function Line(indent: nat, content: string, tail: string): string {
    Spaces(indent) + content + tail
  }

  function PrintEntries(entries: seq<Entry>): seq<string> {
    if entries == [] then []
    else
      var e := entries[0];
      [Line(e.indent, Shown(e.field, e.style), e.style.tail)] + PrintEntries(entries[1..])
  }

  function PrintItems(items: seq<Record>, indent: nat): seq<string> {
    if items == [] then []
    else
      var r := items[0];
      [Line(indent, "- " + Shown(r.first.field, r.first.style), r.first.style.tail)]
      + PrintEntries(r.rest) + PrintItems(items[1..], indent)
  }

  function PrintNodes(nodes: seq<Node>, indent: nat): seq<string>
    decreases nodes
  {
    if nodes == [] then []
    else
      (match nodes[0]
       case Remark(text) => [text]
       case Scalar(f, style) => [Line(indent, Shown(f, style), style.tail)]
       case Section(key, tail, inner, body) => [Line(indent, key + ":", tail)] + PrintNodes(body, inner)
       case Records(key, tail, inner, items) => [Line(indent, key + ":", tail)] + PrintItems(items, inner))
      + PrintNodes(nodes[1..], indent)
  }

  function Print(document: seq<Node>, indent: nat): string {
    Unlines(PrintNodes(document, indent))
  }

  // ----- meaning -----

  type Bindings = seq<(string, string)>

  function FlattenEntries(entries: seq<Entry>, section: string, index: nat): Bindings {
    if entries == [] then []
    else [(ItemKey(section, index, entries[0].field.key), entries[0].field.value)]
         + FlattenEntries(entries[1..], section, index)
  }

  function FlattenItems(items: seq<Record>, section: string, index: nat): Bindings {
    if items == [] then []
    else FlattenEntries([items[0].first] + items[0].rest, section, index) + FlattenItems(items[1..], section, index + 1)
  }

  function Flatten(nodes: seq<Node>, section: string): Bindings
    decreases nodes
  {
    if nodes == [] then []
    else
      (match nodes[0]
       case Remark(_) => []
       case Scalar(f, _) => [(Path(section, f.key), f.value)]
       case Section(key, _, _, body) => Flatten(body, Path(section, key))
       case Records(key, _, _, items) => FlattenItems(items, Path(section, key), 0))
      + Flatten(nodes[1..], section)
  }

  function PutAll(config: map<string, string>, bs: Bindings): map<string, string>
    decreases |bs|
  {
    if bs == [] then config else PutAll(config[bs[0].0 := bs[0].1], bs[1..])
  }

  /** Keys that are not bound keep the value they had. */
  lemma {:induction false} PutAllKeeps(config: map<string, string>, bs: Bindings, key: string)
    requires forall b | b in bs :: b.0 != key
    ensures key in PutAll(config, bs) <==> key in config
    ensures key in config ==> PutAll(config, bs)[key] == config[key]
    decreases |bs|
  {
    if bs != [] {
      PutAllKeeps(config[bs[0].0 := bs[0].1], bs[1..], key);
    }
  }

  /** Later duplicates win: the last binding of a key is the one that is looked up. */
  lemma PutAllLooksUpLast(config: map<string, string>, bs: Bindings, i: nat)
    requires i < |bs| && forall j | i < j < |bs| :: bs[j].0 != bs[i].0
    ensures bs[i].0 in PutAll(config, bs) && PutAll(config, bs)[bs[i].0] == bs[i].1
  {
    var (key, value) := bs[i];
    var before, after := bs[..i], bs[i + 1..];
    assert bs == before + ([bs[i]] + after);
    PutAllConcat(config, before, [bs[i]] + after);
    var config' := PutAll(config, before)[key := value];
    assert ([bs[i]] + after)[1..] == after;
    PutAllKeeps(config', after, key);
  }

  lemma {:induction false} PutAllConcat(config: map<string, string>, bs: Bindings, cs: Bindings)
    ensures PutAll(config, bs + cs) == PutAll(PutAll(config, bs), cs)
    decreases |bs|
  {
    if bs == [] {
      assert bs + cs == cs;
    } else {
      assert (bs + cs)[1..] == bs[1..] + cs;
      PutAllConcat(config[bs[0].0 := bs[0].1], bs[1..], cs);
    }
  }

  // ----- one line -----

  lemma LexContent(indent: nat, content: string, tail: string)
    requires content != "" && Bare(content, WHITESPACE) && '#' !in content && TailOk(tail)
    ensures Lex(Line(indent, content, tail)) ==
      if IsDash(content) then Dash(indent, SplitField(DashItem(content)))
      else Plain(indent, SplitField(content), QuotedEmpty(content))
  {
    var line, blank := Line(indent, content, tail), Uncommented(tail);
    var text := Spaces(indent) + content + blank;
    assert Uncommented(line) == text by {
      HashAfter(Spaces(indent) + content, tail);
    }
    CoreBounds(Spaces(indent), content, blank, WHITESPACE);
    StripPadded(Spaces(indent), content, blank, WHITESPACE);
  }

  lemma HashAfter(a: string, tail: string)
    requires '#' !in a
    ensures Uncommented(a + tail) == a + Uncommented(tail)
  {
    if a == "" {
      assert a + tail == tail;
    } else {
      assert (a + tail)[1..] == a[1..] + tail && (a + tail)[0] == a[0];
      HashAfter(a[1..], tail);
    }
  }

  lemma LexRemark(text: string)
    requires TailOk(text)
    ensures Lex(text) == Blank
  {
    FirstFound(Uncommented(text), WHITESPACE);
  }

  /** A line may end in blanks, tabs and a carriage return or a comment; blanks and tabs may stand before a value. */
  lemma LayoutIsFree(n: nat, remark: string)
    requires '\n' !in remark
    ensures TailOk(Spaces(n) + "\t\r") && TailOk(Spaces(n) + "\t#" + remark) && Only(Spaces(n) + "\t", BLANKS)
  {
    var (returned, tail) := (Spaces(n) + "\t\r", Spaces(n) + "\t");
    assert '#' !in returned && '#' !in tail;
    assert returned + "" == returned;
    HashAfter(returned, "");
    HashAfter(tail, "#" + remark);
    assert tail + ("#" + remark) == Spaces(n) + "\t#" + remark;
    assert tail + "" == tail;
  }

  lemma LexHeader(indent: nat, key: string, tail: string)
    requires KeyOk(key) && TailOk(tail)
    ensures Lex(Line(indent, key + ":", tail)) == Plain(indent, Some(Field(key, "")), false)
  {
    LexField(indent, Field(key, ""), Style("", false, tail));
    assert Shown(Field(key, ""), Style("", false, tail)) == key + ":";
  }

  function Raw(f: Field, style: Style): string {
    style.gap + if style.quoted then "\"" + f.value + "\"" else f.value
  }

  lemma ShownParts(f: Field, style: Style)
    requires ':' !in f.key
    ensures var s := Shown(f, style);
      IndexOf(s, ':') == |f.key| < |s| && s[..|f.key|] == f.key && s[|f.key| + 1..] == Raw(f, style)
  {
    assert Shown(f, style) == f.key + [':'] + Raw(f, style);
    IndexAfter(f.key, ':', Raw(f, style));
  }

  lemma RawTrimmed(f: Field, style: Style)
    requires Bare(f.value, TRIMMED) && Only(style.gap, BLANKS)
    ensures Strip(Raw(f, style), TRIMMED) == f.value
  {
    var q := if style.quoted then "\"" else "";
    assert Raw(f, style) == (style.gap + q) + f.value + q;
    StripPadded(style.gap + q, f.value, q, TRIMMED);
  }

  lemma SplitShown(f: Field, style: Style)
    requires FieldOk(f, style)
    ensures SplitField(Shown(f, style)) == Some(f)
    ensures f.value == "" ==> QuotedEmpty(Shown(f, style)) == style.quoted
  {
    ShownParts(f, style);
    StripBare(f.key, TRIMMED);
    RawTrimmed(f, style);
    if f.value == "" && style.quoted {
      assert Raw(f, style) == style.gap + "\"\"";
      Prefixed(style.gap, "\"\"", BLANKS);
    }
  }

  lemma ShownContent(f: Field, style: Style)
    requires FieldOk(f, style)
    ensures var s := Shown(f, style); s != "" && Bare(s, WHITESPACE) && '#' !in s && '\n' !in s && !IsDash(s)
  {
    assert Shown(f, style)[0] == f.key[0];
    NotDash(f, style);
  }

  lemma LexField(indent: nat, f: Field, style: Style)
    requires FieldOk(f, style)
    ensures Lex(Line(indent, Shown(f, style), style.tail)) == Plain(indent, Some(f), QuotedEmpty(Shown(f, style)))
    ensures f.value == "" ==> QuotedEmpty(Shown(f, style)) == style.quoted
  {
    ShownContent(f, style);
    SplitShown(f, style);
    LexContent(indent, Shown(f, style), style.tail);
  }

  lemma LexDash(indent: nat, f: Field, style: Style)
    requires FieldOk(f, style)
    ensures Lex(Line(indent, "- " + Shown(f, style), style.tail)) == Dash(indent, Some(f))
  {
    ShownContent(f, style);
    SplitShown(f, style);
    DashContent(Shown(f, style));
    LexContent(indent, "- " + Shown(f, style), style.tail);
  }

  lemma DashContent(s: string)
    requires s != "" && Bare(s, WHITESPACE) && '#' !in s
    ensures var content := "- " + s;
      Bare(content, WHITESPACE) && '#' !in content && IsDash(content) && DashItem(content) == s
  {
    var content := "- " + s;
    assert content[2..] == s;
    assert FirstNotOf(s, BLANKS) == 0;
  }

  // ----- many lines -----

  lemma {:induction false} RunConcat(s: State, a: seq<string>, b: seq<string>)
    ensures Run(s, a + b) == Run(Run(s, a), b)
    decreases |a|
  {
    if a == [] {
      assert a + b == b;
    } else {
      assert (a + b)[1..] == a[1..] + b;
      RunConcat(Step(s, Lex(a[0])), a[1..], b);
    }
  }

  lemma {:induction false} PopPop(stack: seq<Header>, inner: nat, outer: nat)
    requires outer <= inner
    ensures PopTo(PopTo(stack, inner), outer) == PopTo(stack, outer)
  {
    if stack != [] && stack[|stack| - 1].indent >= inner {
      PopPop(stack[..|stack| - 1], inner, outer);
    }
  }

  /** Where a line at this indentation lands: below the headers of base, and outside any list. */
  predicate Ready(s: State, indent: nat, base: seq<Header>) {
    PopTo(s.stack, indent) == base && (s.listSection == "" || indent <= s.listIndent)
  }

  lemma ReadyOutside(s: State, inner: nat, outer: nat, base: seq<Header>, key: string)
    requires outer <= inner && Ready(s, inner, base + [Header(outer, key)]) && PopTo(base, outer) == base
    ensures Ready(s, outer, base)
  {
    PopPop(s.stack, inner, outer);
    assert (base + [Header(outer, key)])[..|base|] == base;
  }

  /** A header line closes the list it follows and opens its section under base. */
  lemma StepHeader(s: State, indent: nat, base: seq<Header>, key: string, tail: string)
    requires Ready(s, indent, base) && KeyOk(key) && TailOk(tail)
    ensures var s' := Step(s, Lex(Line(indent, key + ":", tail)));
      s'.config == s.config && s'.stack == base + [Header(indent, key)] && s'.listSection == ""
    ensures CurrentSection(base + [Header(indent, key)]) == Path(CurrentSection(base), key)
  {
    LexHeader(indent, key, tail);
    assert (base + [Header(indent, key)])[..|base|] == base;
  }

  lemma StepScalar(s: State, indent: nat, base: seq<Header>, f: Field, style: Style)
    requires Ready(s, indent, base) && FieldOk(f, style) && (f.value != "" || style.quoted)
    ensures var s' := Step(s, Lex(Line(indent, Shown(f, style), style.tail)));
      Ready(s', indent, base) && s'.config == s.config[Path(CurrentSection(base), f.key) := f.value]
  {
    LexField(indent, f, style);
    PopPop(s.stack, indent, indent);
  }

  lemma {:induction false} RunEntries(s: State, entries: seq<Entry>)
    requires forall e | e in entries :: s.listIndent < e.indent && FieldOk(e.field, e.style)
    requires s.listSection != "" && s.listIndex >= 0
    ensures Run(s, PrintEntries(entries))
         == s.(config := PutAll(s.config, FlattenEntries(entries, s.listSection, s.listIndex)))
    decreases |entries|
  {
    if entries != [] {
      var e := entries[0];
      LexField(e.indent, e.field, e.style);
      RunEntries(PutItem(s, Some(e.field)), entries[1..]);
    }
  }

  /** Where a list's n-th dash line lands: in the section on top of the stack, or after n earlier items. */
  predicate AtItem(s: State, indent: nat, section: string, n: nat) {
    section != "" && CurrentSection(s.stack) == section
    && if n == 0 then s.listSection == ""
       else s.listSection == section && s.listIndex == n - 1 && s.listIndent == indent
  }

  lemma RunRecord(s: State, r: Record, indent: nat, section: string, n: nat)
    requires AtItem(s, indent, section, n) && RecordOk(r, indent)
    ensures var s' := Run(s, PrintItems([r], indent));
      AtItem(s', indent, section, n + 1) && s'.stack == s.stack
      && s'.config == PutAll(s.config, FlattenEntries([r.first] + r.rest, section, n))
  {
    StepDash(s, r.first, indent, section, n);
    var lines := PrintItems([r], indent);
    PrintedRecord(r, indent, section, n);
    RunHead(s, lines);
    RunEntries(Step(s, Lex(lines[0])), r.rest);
  }

  lemma StepDash(s: State, e: Entry, indent: nat, section: string, n: nat)
    requires AtItem(s, indent, section, n) && FieldOk(e.field, e.style)
    ensures Step(s, Lex(Line(indent, "- " + Shown(e.field, e.style), e.style.tail)))
         == State(s.config[ItemKey(section, n, e.field.key) := e.field.value], s.stack, n, section, indent)
  {
    LexDash(indent, e.field, e.style);
    TakeItem(s, e.field, indent, section, n);
  }

  /** A dash line deeper than its list starts no item: its field joins the item that is open. */
  lemma DeeperDashJoinsItem(s: State, e: Entry)
    requires s.listSection != "" && s.listIndex >= 0 && s.listIndent < e.indent && FieldOk(e.field, e.style)
    ensures Step(s, Lex(Line(e.indent, "- " + Shown(e.field, e.style), e.style.tail)))
         == s.(config := s.config[Joined([s.listSection, NatToString(s.listIndex), e.field.key]) := e.field.value])
  {
    LexDash(e.indent, e.field, e.style);
    ItemKeyIsJoined(s.listSection, s.listIndex, e.field.key);
  }

  lemma TakeItem(s: State, f: Field, indent: nat, section: string, n: nat)
    requires AtItem(s, indent, section, n)
    ensures Step(s, Dash(indent, Some(f)))
         == State(s.config[ItemKey(section, n, f.key) := f.value], s.stack, n, section, indent)
  {
  }

  lemma PrintedRecord(r: Record, indent: nat, section: string, n: nat)
    ensures var lines := PrintItems([r], indent);
      |lines| > 0 && lines[0] == Line(indent, "- " + Shown(r.first.field, r.first.style), r.first.style.tail)
      && lines[1..] == PrintEntries(r.rest)
    ensures var bs := FlattenEntries([r.first] + r.rest, section, n);
      |bs| > 0 && bs[0] == (ItemKey(section, n, r.first.field.key), r.first.field.value)
      && bs[1..] == FlattenEntries(r.rest, section, n)
  {
    assert ([r.first] + r.rest)[1..] == r.rest;
  }

  lemma ItemsSplit(items: seq<Record>, indent: nat, section: string, n: nat)
    requires items != []
    ensures PrintItems(items, indent) == PrintItems([items[0]], indent) + PrintItems(items[1..], indent)
    ensures FlattenItems(items, section, n)
         == FlattenEntries([items[0].first] + items[0].rest, section, n) + FlattenItems(items[1..], section, n + 1)
  {
  }

  lemma {:induction false} RunItems(s: State, items: seq<Record>, indent: nat, section: string, n: nat)
    requires AtItem(s, indent, section, n) && forall r | r in items :: RecordOk(r, indent)
    ensures var s' := Run(s, PrintItems(items, indent));
      AtItem(s', indent, section, n + |items|) && s'.stack == s.stack
      && s'.config == PutAll(s.config, FlattenItems(items, section, n))
    decreases |items|
  {
    if items != [] {
      var r, rest := items[0], items[1..];
      RunRecord(s, r, indent, section, n);
      RunItems(Run(s, PrintItems([r], indent)), rest, indent, section, n + 1);
      ItemsSplit(items, indent, section, n);
      RunConcat(s, PrintItems([r], indent), PrintItems(rest, indent));
      PutAllConcat(s.config, FlattenEntries([r.first] + r.rest, section, n), FlattenItems(rest, section, n + 1));
    }
  }

  lemma {:induction false} PrintSplit(nodes: seq<Node>, indent: nat)
    requires nodes != []
    ensures PrintNodes(nodes, indent) == PrintNodes([nodes[0]], indent) + PrintNodes(nodes[1..], indent)
  {
    assert [nodes[0]][1..] == [];
  }

  lemma {:induction false} FlattenSplit(nodes: seq<Node>, section: string)
    requires nodes != []
    ensures Flatten(nodes, section) == Flatten([nodes[0]], section) + Flatten(nodes[1..], section)
  {
    assert [nodes[0]][1..] == [];
  }

  /** A printed block adds exactly its flattened bindings and leaves the parser ready for its next sibling. */
  lemma {:induction false} RunNodes(s: State, nodes: seq<Node>, indent: nat, base: seq<Header>)
    requires NodesOk(nodes, indent) && Ready(s, indent, base)
    ensures var s' := Run(s, PrintNodes(nodes, indent));
      Ready(s', indent, base) && s'.config == PutAll(s.config, Flatten(nodes, CurrentSection(base)))
    decreases nodes
  {
    if nodes != [] {
      var node, rest, section := nodes[0], nodes[1..], CurrentSection(base);
      RunNode(s, node, indent, base);
      RunNodes(Run(s, PrintNodes([node], indent)), rest, indent, base);
      PrintSplit(nodes, indent);
      FlattenSplit(nodes, section);
      RunConcat(s, PrintNodes([node], indent), PrintNodes(rest, indent));
      PutAllConcat(s.config, Flatten([node], section), Flatten(rest, section));
    }
  }

  lemma {:induction false} RunNode(s: State, node: Node, indent: nat, base: seq<Header>)
    requires NodeOk(node, indent) && Ready(s, indent, base)
    ensures var s' := Run(s, PrintNodes([node], indent));
      Ready(s', indent, base) && s'.config == PutAll(s.config, Flatten([node], CurrentSection(base)))
    decreases node, 1
  {
    PopPop(s.stack, indent, indent);
    match node
    case Remark(text) =>
      LexRemark(text);
    case Scalar(f, style) =>
      StepScalar(s, indent, base, f, style);
    case Section(_, _, _, _) =>
      RunSection(s, node, indent, base);
    case Records(_, _, _, _) =>
      RunRecords(s, node, indent, base);
  }

  lemma {:induction false} RunSection(s: State, node: Node, indent: nat, base: seq<Header>)
    requires node.Section? && NodeOk(node, indent) && Ready(s, indent, base) && PopTo(base, indent) == base
    ensures var s' := Run(s, PrintNodes([node], indent));
      Ready(s', indent, base) && s'.config == PutAll(s.config, Flatten([node], CurrentSection(base)))
    decreases node, 0
  {
    var lines, stack := PrintNodes([node], indent), base + [Header(indent, node.key)];
    StepHeader(s, indent, base, node.key, node.tail);
    PrintedSection(node, indent, CurrentSection(base));
    RunHead(s, lines);
    var s1 := Step(s, Lex(lines[0]));
    RunNodes(s1, node.body, node.indent, stack);
    ReadyOutside(Run(s1, lines[1..]), node.indent, indent, base, node.key);
  }

  lemma RunRecords(s: State, node: Node, indent: nat, base: seq<Header>)
    requires node.Records? && NodeOk(node, indent) && Ready(s, indent, base) && PopTo(base, indent) == base
    ensures var s' := Run(s, PrintNodes([node], indent));
      Ready(s', indent, base) && s'.config == PutAll(s.config, Flatten([node], CurrentSection(base)))
  {
    var lines := PrintNodes([node], indent);
    StepHeader(s, indent, base, node.key, node.tail);
    PrintedRecords(node, indent, CurrentSection(base));
    RunHead(s, lines);
    var s1 := Step(s, Lex(lines[0]));
    RunItems(s1, node.items, node.indent, Path(CurrentSection(base), node.key), 0);
    assert s1.stack[..|base|] == base;
  }

  lemma PrintedSection(node: Node, indent: nat, section: string)
    requires node.Section?
    ensures PrintNodes([node], indent)
         == [Line(indent, node.key + ":", node.tail)] + PrintNodes(node.body, node.indent)
    ensures PrintNodes([node], indent)[1..] == PrintNodes(node.body, node.indent)
    ensures Flatten([node], section) == Flatten(node.body, Path(section, node.key))
  {
  }

  lemma PrintedRecords(node: Node, indent: nat, section: string)
    requires node.Records?
    ensures PrintNodes([node], indent)
         == [Line(indent, node.key + ":", node.tail)] + PrintItems(node.items, node.indent)
    ensures PrintNodes([node], indent)[1..] == PrintItems(node.items, node.indent)
    ensures Flatten([node], section) == FlattenItems(node.items, Path(section, node.key), 0)
  {
  }

  predicate OneLiners(lines: seq<string>) {
    forall l | l in lines :: '\n' !in l
  }

  lemma LineIsOne(indent: nat, content: string, tail: string)
    requires '\n' !in content && '\n' !in tail
    ensures '\n' !in Line(indent, content, tail)
  {
  }

  lemma {:induction false} EntriesAreLines(entries: seq<Entry>)
    requires forall e | e in entries :: FieldOk(e.field, e.style)
    ensures OneLiners(PrintEntries(entries))
  {
    if entries != [] {
      var e := entries[0];
      ShownContent(e.field, e.style);
      LineIsOne(e.indent, Shown(e.field, e.style), e.style.tail);
      EntriesAreLines(entries[1..]);
    }
  }

  lemma {:induction false} ItemsAreLines(items: seq<Record>, indent: nat)
    requires forall r | r in items :: RecordOk(r, indent)
    ensures OneLiners(PrintItems(items, indent))
  {
    if items != [] {
      var r := items[0];
      assert RecordOk(r, indent);
      ShownContent(r.first.field, r.first.style);
      LineIsOne(indent, "- " + Shown(r.first.field, r.first.style), r.first.style.tail);
      EntriesAreLines(r.rest);
      ItemsAreLines(items[1..], indent);
    }
  }

  lemma {:induction false} NodesAreLines(nodes: seq<Node>, indent: nat)
    requires NodesOk(nodes, indent)
    ensures OneLiners(PrintNodes(nodes, indent))
    decreases nodes
  {
    if nodes != [] {
      NodesAreLines(nodes[1..], indent);
      assert NodeOk(nodes[0], indent);
      match nodes[0]
      case Remark(text) =>
      case Scalar(f, style) =>
        ShownContent(f, style);
        LineIsOne(indent, Shown(f, style), style.tail);
      case Section(key, tail, inner, body) =>
        LineIsOne(indent, key + ":", tail);
        NodesAreLines(body, inner);
      case Records(key, tail, inner, items) =>
        LineIsOne(indent, key + ":", tail);
        ItemsAreLines(items, inner);
    }
  }

  // ----- the keys -----

  /** A value and the names that lead to it, from the outermost section in; an item of a list is named by its number. */
  datatype Leaf = Leaf(path: seq<string>, value: string)

  function EntryLeaves(entries: seq<Entry>, path: seq<string>, index: nat): seq<Leaf> {
    if entries == [] then []
    else
      [Leaf(path + [NatToString(index), entries[0].field.key], entries[0].field.value)]
      + EntryLeaves(entries[1..], path, index)
  }

  function ItemLeaves(items: seq<Record>, path: seq<string>, index: nat): seq<Leaf> {
    if items == [] then []
    else EntryLeaves([items[0].first] + items[0].rest, path, index) + ItemLeaves(items[1..], path, index + 1)
  }

  /** All values of a document, in order. */
  function Leaves(nodes: seq<Node>, path: seq<string>): seq<Leaf>
    decreases nodes
  {
    if nodes == [] then []
    else
      (match nodes[0]
       case Remark(_) => []
       case Scalar(f, _) => [Leaf(path + [f.key], f.value)]
       case Section(key, _, _, body) => Leaves(body, path + [key])
       case Records(key, _, _, items) => ItemLeaves(items, path + [key], 0))
      + Leaves(nodes[1..], path)
  }

  /** Each value under its names, joined by dots. */
  function Dotted(leaves: seq<Leaf>): Bindings {
    seq(|leaves|, i requires 0 <= i < |leaves| => (Joined(leaves[i].path), leaves[i].value))
  }

  lemma DottedConcat(a: seq<Leaf>, b: seq<Leaf>)
    ensures Dotted(a + b) == Dotted(a) + Dotted(b)
  {
  }

  lemma {:induction false} EntriesAreDotted(entries: seq<Entry>, path: seq<string>, index: nat)
    requires path != [] && path[0] != ""
    ensures FlattenEntries(entries, Joined(path), index) == Dotted(EntryLeaves(entries, path, index))
  {
    if entries != [] {
      var f := entries[0].field;
      ItemPathIsJoined(path, index, f.key);
      EntriesAreDotted(entries[1..], path, index);
      DottedConcat([Leaf(path + [NatToString(index), f.key], f.value)], EntryLeaves(entries[1..], path, index));
    }
  }

  lemma {:induction false} ItemsAreDotted(items: seq<Record>, path: seq<string>, index: nat)
    requires path != [] && path[0] != ""
    ensures FlattenItems(items, Joined(path), index) == Dotted(ItemLeaves(items, path, index))
  {
    if items != [] {
      var entries := [items[0].first] + items[0].rest;
      EntriesAreDotted(entries, path, index);
      ItemsAreDotted(items[1..], path, index + 1);
      DottedConcat(EntryLeaves(entries, path, index), ItemLeaves(items[1..], path, index + 1));
    }
  }

  lemma {:induction false} NodeIsDotted(node: Node, indent: nat, path: seq<string>)
    requires NodeOk(node, indent) && (path != [] ==> path[0] != "")
    ensures Flatten([node], Joined(path)) == Dotted(Leaves([node], path))
    decreases node, 1
  {
    assert [node][1..] == [];
    match node
    case Remark(_) =>
    case Scalar(f, _) =>
      PathIsJoined(path, f.key);
    case Section(key, _, inner, body) =>
      PathIsJoined(path, key);
      DocumentIsDotted(body, inner, path + [key]);
    case Records(key, _, inner, items) =>
      PathIsJoined(path, key);
      ItemsAreDotted(items, path + [key], 0);
  }

  lemma {:induction false} DocumentIsDotted(nodes: seq<Node>, indent: nat, path: seq<string>)
    requires NodesOk(nodes, indent) && (path != [] ==> path[0] != "")
    ensures Flatten(nodes, Joined(path)) == Dotted(Leaves(nodes, path))
    decreases nodes
  {
    if nodes != [] {
      NodeIsDotted(nodes[0], indent, path);
      DocumentIsDotted(nodes[1..], indent, path);
      FlattenSplit(nodes, Joined(path));
      LeavesSplit(nodes, path);
      DottedConcat(Leaves([nodes[0]], path), Leaves(nodes[1..], path));
    }
  }

  lemma {:induction false} LeavesSplit(nodes: seq<Node>, path: seq<string>)
    requires nodes != []
    ensures Leaves(nodes, path) == Leaves([nodes[0]], path) + Leaves(nodes[1..], path)
  {
    assert [nodes[0]][1..] == [];
  }

  /**
   * Parsing undoes printing: the text of a document loads as exactly its values, each under the names that lead to it
   * joined by dots.
   */
  lemma ParseUndoesPrint(config: map<string, string>, document: seq<Node>, indent: nat)
    requires NodesOk(document, indent)
    ensures Load(config, Print(document, indent)) == PutAll(config, Dotted(Leaves(document, [])))
  {
    NodesAreLines(document, indent);
    LinesOfUnlines(PrintNodes(document, indent));
    RunNodes(Start(config), document, indent, []);
    DocumentIsDotted(document, indent, []);
  }

  /** A value under a chain of sections, each indented by one blank more than the last. */
  function Chain(sections: seq<string>, f: Field, style: Style, indent: nat): Node {
    if sections == [] then Scalar(f, style)
    else Section(sections[0], "", indent + 1, [Chain(sections[1..], f, style, indent + 1)])
  }

  lemma {:induction false} ChainOk(sections: seq<string>, f: Field, style: Style, indent: nat, path: seq<string>)
    requires FieldOk(f, style) && (f.value != "" || style.quoted) && forall name | name in sections :: KeyOk(name)
    ensures NodeOk(Chain(sections, f, style, indent), indent)
    ensures Leaves([Chain(sections, f, style, indent)], path) == [Leaf(path + sections + [f.key], f.value)]
  {
    if sections == [] {
      assert path + sections == path;
    } else {
      var inner := Chain(sections[1..], f, style, indent + 1);
      ChainOk(sections[1..], f, style, indent + 1, path + [sections[0]]);
      assert path + [sections[0]] + sections[1..] == path + sections;
      assert [Chain(sections, f, style, indent)][1..] == [];
    }
  }

  /** A value under any chain of sections is bound to their names and its own, joined by dots, and nothing else is. */
  lemma ValueUnderSections(config: map<string, string>, sections: seq<string>, f: Field, style: Style, indent: nat)
    requires FieldOk(f, style) && (f.value != "" || style.quoted) && forall name | name in sections :: KeyOk(name)
    ensures Load(config, Print([Chain(sections, f, style, indent)], indent))
         == config[Joined(sections + [f.key]) := f.value]
  {
    ChainOk(sections, f, style, indent, []);
    ParseUndoesPrint(config, [Chain(sections, f, style, indent)], indent);
    assert [] + sections + [f.key] == sections + [f.key];
    var b := (Joined(sections + [f.key]), f.value);
    assert Dotted([Leaf(sections + [f.key], f.value)]) == [b];
    var rest: Bindings := [b][1..];
    assert rest == [];
    assert PutAll(config[b.0 := b.1], rest) == config[b.0 := b.1];
  }

  // ----- every run -----

  predicate Ascending(stack: seq<Header>) {
    forall i, j | 0 <= i < j < |stack| :: stack[i].indent < stack[j].indent
  }

  /** What every line of every file keeps: nesting is strict, and an open list has an index and an indent. */
  predicate Sound(s: State) {
    Ascending(s.stack) && (s.listSection != "" ==> s.listIndex >= 0 && s.listIndent >= 0)
  }

  lemma {:induction false} PoppedBelow(stack: seq<Header>, indent: nat)
    requires Ascending(stack)
    ensures var popped := PopTo(stack, indent);
      popped <= stack && (forall h | h in popped :: h.indent < indent)
      && (forall i | |popped| <= i < |stack| :: stack[i].indent >= indent)
  {
    if stack != [] && stack[|stack| - 1].indent >= indent {
      PoppedBelow(stack[..|stack| - 1], indent);
    }
  }

  /**
   * Whatever a file holds, header indents strictly increase up the stack, and popping keeps exactly the shallower
   * ones.
   */
  lemma {:induction false} RunSound(s: State, lines: seq<string>)
    requires Sound(s)
    ensures Sound(Run(s, lines))
    decreases |lines|
  {
    if lines != [] {
      StepSound(s, Lex(lines[0]));
      RunSound(Step(s, Lex(lines[0])), lines[1..]);
    }
  }

  lemma StepSound(s: State, token: Token)
    requires Sound(s)
    ensures Sound(Step(s, token))
  {
    if token.Plain? {
      PoppedBelow(s.stack, token.indent);
      if token.field.Some? {
        PushedAscending(PopTo(s.stack, token.indent), Header(token.indent, token.field.value.key));
      }
    }
  }

  lemma PushedAscending(stack: seq<Header>, h: Header)
    requires Ascending(stack) && forall g | g in stack :: g.indent < h.indent
    ensures Ascending(stack + [h])
  {
  }

  /** Why lists need a named section: at top level every dash line starts over at index 0. */
  lemma TopLevelDashRestarts(s: State, indent: nat, field: Field)
    requires s.listSection == "" && CurrentSection(s.stack) == ""
    ensures var s' := Step(s, Dash(indent, Some(field)));
      s'.config == s.config[".0." + field.key := field.value] && s'.listSection == "" && s'.stack == s.stack
  {
    assert NatToString(0) == "0";
    assert ItemKey("", 0, field.key) == ".0." + field.key;
  }

  lemma NotDash(f: Field, style: Style)
    requires KeyOk(f.key)
    ensures !IsDash(Shown(f, style))
  {
    var s := Shown(f, style);
    assert s[0] == f.key[0];
    assert |f.key| == 1 ==> s[1] == ':';
    assert |f.key| > 1 ==> s[1] == f.key[1];
  }
}
