/** The indentation-driven configuration parser: a stack machine over the lines of a file. */
module ConfigParser {
  import opened Text

  datatype Field = Field(key: string, value: string)

  /** What one line says once its comment and outer white space are gone. */
  datatype Token =
    | Blank
    | Dash(indent: nat, field: Option<Field>)
    | Plain(indent: nat, field: Option<Field>, quotedEmpty: bool)

  function SplitField(s: string): Option<Field> {
    var colon := IndexOf(s, ':');
    if colon == |s| then None
    else Some(Field(Strip(s[..colon], TRIMMED), Strip(s[colon + 1..], TRIMMED)))
  }

  /** The raw value starts with two quotes: an explicit empty string, not a section header. */
  predicate QuotedEmpty(s: string) {
    var colon := IndexOf(s, ':');
    colon < |s| &&
    var raw := s[colon + 1..];
    var start := FirstNotOf(raw, BLANKS);
    start + 2 <= |raw| && raw[start] == '"' && raw[start + 1] == '"'
  }

  function Uncommented(line: string): string {
    line[..IndexOf(line, '#')]
  }

  predicate IsDash(content: string) {
    |content| >= 2 && content[0] == '-' && content[1] == ' '
  }

  function DashItem(content: string): string
    requires IsDash(content)
  {
    var item := content[2..];
    var start := FirstNotOf(item, BLANKS);
    if start < |item| then item[start..] else item
  }

  function Lex(line: string): Token {
    var text := Uncommented(line);
    var indent := FirstNotOf(text, WHITESPACE);
    if indent == |text| then Blank
    else
      var content := Strip(text, WHITESPACE);
      if IsDash(content) then Dash(indent, SplitField(DashItem(content)))
      else Plain(indent, SplitField(content), QuotedEmpty(content))
  }

  // ----- the stack machine -----

  datatype Header = Header(indent: nat, name: string)

  datatype State = State(
    config: map<string, string>,
    stack: seq<Header>,
    listIndex: int,
    listSection: string,
    listIndent: int)

  function Start(config: map<string, string>): State {
    State(config, [], -1, "", -1)
  }

  function CurrentSection(stack: seq<Header>): string {
    if stack == [] then ""
    else Path(CurrentSection(stack[..|stack| - 1]), stack[|stack| - 1].name)
  }

  function Path(section: string, name: string): string {
    if section == "" then name else section + "." + name
  }

  function PopTo(stack: seq<Header>, indent: nat): seq<Header> {
    if stack != [] && stack[|stack| - 1].indent >= indent then PopTo(stack[..|stack| - 1], indent) else stack
  }

  function ItemKey(section: string, index: int, key: string): string {
    section + "." + IntToString(index) + "." + key
  }

  function PutItem(s: State, field: Option<Field>): State {
    match field
    case None => s
    case Some(f) => s.(config := s.config[ItemKey(s.listSection, s.listIndex, f.key) := f.value])
  }

  function Step(s: State, token: Token): State {
    match token
    case Blank => s
    case Dash(indent, field) =>
      var s' :=
        if s.listSection == "" then
          s.(listSection := CurrentSection(s.stack), listIndex := 0, listIndent := indent)
        else if indent <= s.listIndent then s.(listIndex := s.listIndex + 1)
        else s;
      PutItem(s', field)
    case Plain(indent, field, quotedEmpty) =>
      if s.listSection != "" && indent > s.listIndent && s.listIndex >= 0 then PutItem(s, field)
      else Plainly(s, indent, field, quotedEmpty)
  }

  /** A line that is no part of a list: it closes the list and the sections it is not inside of. */
  function Plainly(s: State, indent: nat, field: Option<Field>, quotedEmpty: bool): State {
    var (config, stack) := Entered(s.config, PopTo(s.stack, indent), indent, field, quotedEmpty);
    Unlisted(s, indent).(config := config, stack := stack)
  }

  function Entered(config: map<string, string>, stack: seq<Header>, indent: nat,
                   field: Option<Field>, quotedEmpty: bool): (map<string, string>, seq<Header>)
  {
    match field
    case None => (config, stack)
    case Some(f) =>
      if f.value == "" && !quotedEmpty then (config, stack + [Header(indent, f.key)])
      else (config[Path(CurrentSection(stack), f.key) := f.value], stack)
  }

  function Unlisted(s: State, indent: nat): State {
    if s.listSection != "" && indent <= s.listIndent
    then s.(listSection := "", listIndex := -1, listIndent := -1) else s
  }

  function Run(s: State, lines: seq<string>): State
    decreases |lines|
  {
    if lines == [] then s else Run(Step(s, Lex(lines[0])), lines[1..])
  }

  lemma RunHead(s: State, lines: seq<string>)
    requires lines != []
    ensures Run(s, lines) == Run(Step(s, Lex(lines[0])), lines[1..])
  {
  }

  /** The configuration a file's text leads to. */
  function Load(config: map<string, string>, text: string): map<string, string> {
    Run(Start(config), Lines(text)).config
  }

  class ConfigManager {
    var config: map<string, string>

    constructor ()
      ensures config == map[]
    {
      config := map[];
    }

    /** text is the content of the file, or None when it cannot be opened. */
    method LoadFromFile(text: Option<string>) returns (ok: bool)
      modifies this
      ensures ok == text.Some?
      ensures text.None? ==> config == old(config)
      ensures text.Some? ==> config == Load(old(config), text.value)
    {
      if text.None? {
        return false;
      }
      var lines := Lines(text.value);
      var sectionStack: seq<Header> := [];
      var listIndex: int, listSection, listIndent: int := -1, "", -1;
      var n := 0;
      while n < |lines|
        invariant n <= |lines|
        invariant Run(State(config, sectionStack, listIndex, listSection, listIndent), lines[n..])
               == Run(Start(old(config)), lines)
      {
        RunHead(State(config, sectionStack, listIndex, listSection, listIndent), lines[n..]);
        assert lines[n..][1..] == lines[n + 1..];
        sectionStack, listIndex, listSection, listIndent :=
          ProcessLine(lines[n], sectionStack, listIndex, listSection, listIndent);
        n := n + 1;
      }
      return true;
    }

    /** The body of the line loop; the parameters and results are the loop's local variables. */
    method ProcessLine(rawLine: string, sectionStack: seq<Header>, listIndex: int, listSection: string, listIndent: int)
      returns (sectionStack': seq<Header>, listIndex': int, listSection': string, listIndent': int)
      modifies this
      ensures State(config, sectionStack', listIndex', listSection', listIndent')
           == Step(State(old(config), sectionStack, listIndex, listSection, listIndent), Lex(rawLine))
    {
      sectionStack', listIndex', listSection', listIndent' := sectionStack, listIndex, listSection, listIndent;
      var line := rawLine[..IndexOf(rawLine, '#')];
      var indent := FirstNotOf(line, WHITESPACE);
      if indent == |line| {
        return;
      }
      line := Strip(line, WHITESPACE);

      if |line| >= 2 && line[0] == '-' && line[1] == ' ' {
        listIndex', listSection', listIndent' :=
          PutDash(line, indent, sectionStack, listIndex, listSection, listIndent);
        return;
      }

      if listSection != "" && indent > listIndent && listIndex >= 0 {
        PutListItem(listSection, listIndex, line);
        return;
      }

      if listSection != "" && indent <= listIndent {
        listSection' := "";
        listIndex' := -1;
        listIndent' := -1;
      }

      sectionStack' := PopSections(sectionStack, indent);

      sectionStack' := PutPlain(line, indent, sectionStack');
    }

    /** A dash line starts a list, or its next item, or an item inside the current one, and may carry a field. */
    method PutDash(line: string, indent: nat, sectionStack: seq<Header>, listIndex: int, listSection: string,
                   listIndent: int)
      returns (listIndex': int, listSection': string, listIndent': int)
      requires IsDash(line)
      modifies this
      ensures State(config, sectionStack, listIndex', listSection', listIndent')
           == Step(State(old(config), sectionStack, listIndex, listSection, listIndent),
                   Dash(indent, SplitField(DashItem(line))))
    {
      listIndex', listSection', listIndent' := listIndex, listSection, listIndent;
      if listSection == "" {
        listSection' := CurrentSection(sectionStack);
        listIndex' := 0;
        listIndent' := indent;
      } else if indent <= listIndent {
        listIndex' := listIndex + 1;
      }
      var item := line[2..];
      var itemStart := FirstNotOf(item, BLANKS);
      if itemStart < |item| {
        item := item[itemStart..];
      }
      PutListItem(listSection', listIndex', item);
    }

    /** The end of the loop body: a header opens a section, a "key: value" line becomes an entry. */
    method PutPlain(line: string, indent: nat, sectionStack: seq<Header>) returns (sectionStack': seq<Header>)
      modifies this
      ensures (config, sectionStack') == Entered(old(config), sectionStack, indent, SplitField(line), QuotedEmpty(line))
    {
      sectionStack' := sectionStack;
      var colon := IndexOf(line, ':');
      if colon == |line| {
        return;
      }
      var key := TrimValue(line[..colon]);
      var rawValue := line[colon + 1..];
      var rvStart := FirstNotOf(rawValue, BLANKS);
      var isQuotedEmpty := rvStart + 2 <= |rawValue| && rawValue[rvStart] == '"' && rawValue[rvStart + 1] == '"';
      var value := TrimValue(rawValue);
      assert SplitField(line) == Some(Field(key, value)) && isQuotedEmpty == QuotedEmpty(line);

      if value == "" && !isQuotedEmpty {
        sectionStack' := sectionStack' + [Header(indent, key)];
      } else {
        var section := CurrentSection(sectionStack');
        var fullKey := if section == "" then key else section + "." + key;
        config := config[fullKey := value];
      }
    }

    /** A "key: value" text of the current list item becomes an indexed entry; other text is ignored. */
    method PutListItem(listSection: string, listIndex: int, item: string)
      modifies this
      ensures config == match SplitField(item)
                        case None => old(config)
                        case Some(f) => old(config)[ItemKey(listSection, listIndex, f.key) := f.value]
    {
      var itemColon := IndexOf(item, ':');
      if itemColon < |item| {
        var k := TrimValue(item[..itemColon]);
        var v := TrimValue(item[itemColon + 1..]);
        var fullKey := listSection + "." + IntToString(listIndex) + "." + k;
        config := config[fullKey := v];
      }
    }

    static method PopSections(sectionStack: seq<Header>, indent: nat) returns (popped: seq<Header>)
      ensures popped == PopTo(sectionStack, indent)
    {
      popped := sectionStack;
      while popped != [] && popped[|popped| - 1].indent >= indent
        invariant PopTo(popped, indent) == PopTo(sectionStack, indent)
        decreases |popped|
      {
        popped := popped[..|popped| - 1];
      }
    }

    static method TrimValue(s: string) returns (t: string)
      ensures t == Strip(s, TRIMMED)
    {
      var a := FirstNotOf(s, TRIMMED);
      var b := EndLastNotOf(s, TRIMMED);
      FirstBeforeEnd(s, TRIMMED);
      t := if a == |s| then "" else s[a..b];
    }
  }
}
