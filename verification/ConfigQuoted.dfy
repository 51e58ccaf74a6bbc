/** What quotes do for a value that is written to a file, and what they do not. */
module ConfigQuoted {
  import opened ConfigParser
  import opened ConfigRoundTrip
  import opened Text

  /** A value holds only characters of its line, and none that a comment sign cuts off. */
  lemma ValuesHaveNo(x: char, line: string)
    requires x !in Uncommented(line)
    ensures var token := Lex(line);
      !token.Blank? && token.field.Some? ==> x !in token.field.value.value
  {
    var content := Strip(Uncommented(line), WHITESPACE);
    StripHasNo(x, Uncommented(line), WHITESPACE);
    SplitHasNo(x, content);
    if IsDash(content) {
      assert x !in DashItem(content);
      SplitHasNo(x, DashItem(content));
    }
  }

  lemma StripHasNo(x: char, s: string, cs: set<char>)
    requires x !in s
    ensures x !in Strip(s, cs)
  {
  }

  lemma SplitHasNo(x: char, s: string)
    requires x !in s
    ensures SplitField(s).Some? ==> x !in SplitField(s).value.value
  {
    var colon := IndexOf(s, ':');
    if colon < |s| {
      StripHasNo(x, s[colon + 1..], TRIMMED);
    }
  }

  lemma HashCut(line: string)
    ensures '#' !in Uncommented(line) && Uncommented(line) <= line
    ensures '#' !in line ==> Uncommented(line) == line
  {
    IndexBefore(line, '#');
  }

  const QUOTED := Style(" ", true, "")

  lemma SplitQuoted(f: Field)
    requires KeyOk(f.key)
    ensures SplitField(Shown(f, QUOTED)) == Some(Field(f.key, Strip(f.value, TRIMMED)))
    ensures f.value == "" ==> QuotedEmpty(Shown(f, QUOTED))
  {
    ShownParts(f, QUOTED);
    StripBare(f.key, TRIMMED);
    RawQuoted(f);
  }

  lemma RawQuoted(f: Field)
    ensures Strip(Raw(f, QUOTED), TRIMMED) == Strip(f.value, TRIMMED)
    ensures f.value == "" ==> Raw(f, QUOTED) == " \"\"" && FirstNotOf(Raw(f, QUOTED), BLANKS) == 1
  {
    assert Raw(f, QUOTED) == " \"" + f.value + "\"";
    StripInner(" \"", f.value, "\"", TRIMMED);
    if f.value == "" {
      assert Raw(f, QUOTED) == " " + "\"\"";
      Prefixed(" ", "\"\"", BLANKS);
    }
  }

  lemma QuotedContent(f: Field)
    requires KeyOk(f.key) && '#' !in f.value
    ensures var s := Shown(f, QUOTED); s != "" && Bare(s, WHITESPACE) && '#' !in s
  {
    var s := Shown(f, QUOTED);
    assert s[0] == f.key[0] && s[|s| - 1] == '"';
  }

  lemma LexQuoted(indent: nat, f: Field)
    requires KeyOk(f.key) && '#' !in f.value
    ensures Lex(Line(indent, Shown(f, QUOTED), ""))
         == Plain(indent, Some(Field(f.key, Strip(f.value, TRIMMED))), QuotedEmpty(Shown(f, QUOTED)))
  {
    NotDash(f, QUOTED);
    QuotedContent(f);
    SplitQuoted(f);
    LexContent(indent, Shown(f, QUOTED), "");
  }

  lemma {:induction false} LinesHaveNoNewline(text: string)
    ensures OneLiners(Lines(text))
    decreases |text|
  {
    if text != "" {
      var i := IndexOf(text, '\n');
      IndexBefore(text, '\n');
      if i < |text| {
        LinesHaveNoNewline(text[i + 1..]);
      } else {
        assert text[..i] == text;
      }
    }
  }

  /** Unless the key had one before, its value holds neither of the characters that no line's value can hold. */
  predicate PlainAt(config: map<string, string>, key: string) {
    key in config ==> '\n' !in config[key] && '#' !in config[key]
  }

  lemma StepPlainAt(s: State, token: Token, key: string)
    requires PlainAt(s.config, key)
    requires !token.Blank? && token.field.Some? ==> '\n' !in token.field.value.value && '#' !in token.field.value.value
    ensures PlainAt(Step(s, token).config, key)
  {
  }

  lemma LexIsPlain(line: string)
    requires '\n' !in line
    ensures var token := Lex(line);
      !token.Blank? && token.field.Some? ==> '\n' !in token.field.value.value && '#' !in token.field.value.value
  {
    HashCut(line);
    ValuesHaveNo('\n', line);
    ValuesHaveNo('#', line);
  }

  lemma {:induction false} RunPlainAt(s: State, lines: seq<string>, key: string)
    requires PlainAt(s.config, key) && OneLiners(lines)
    ensures PlainAt(Run(s, lines).config, key)
    decreases |lines|
  {
    if lines != [] {
      LexIsPlain(lines[0]);
      StepPlainAt(s, Lex(lines[0]), key);
      RunPlainAt(Step(s, Lex(lines[0])), lines[1..], key);
    }
  }

  /** No file, well-formed or not, gives a key a value that holds a comment sign or a newline. */
  lemma LoadedValuesArePlain(config: map<string, string>, text: string, key: string)
    requires PlainAt(config, key)
    ensures PlainAt(Load(config, text), key)
  {
    LinesHaveNoNewline(text);
    RunPlainAt(Start(config), Lines(text), key);
  }

  lemma LoadLine(config: map<string, string>, line: string)
    requires '\n' !in line
    ensures Load(config, Unlines([line])) == Step(Start(config), Lex(line)).config
  {
    LinesOfUnlines([line]);
    assert [line][1..] == [];
    assert Run(Start(config), [line]) == Step(Start(config), Lex(line));
  }

  lemma StepBinds(config: map<string, string>, indent: nat, f: Field, quotedEmpty: bool)
    requires f.value == "" ==> quotedEmpty
    ensures Step(Start(config), Plain(indent, Some(f), quotedEmpty)).config == config[f.key := f.value]
  {
  }

  lemma QuotedLineLoads(config: map<string, string>, indent: nat, f: Field)
    requires KeyOk(f.key) && '#' !in f.value && '\n' !in f.value && Bare(f.value, TRIMMED)
    ensures Load(config, Unlines([Line(indent, Shown(f, QUOTED), "")])) == config[f.key := f.value]
  {
    LoadLine(config, Line(indent, Shown(f, QUOTED), ""));
    LexQuoted(indent, f);
    SplitQuoted(f);
    StripBare(f.value, TRIMMED);
    StepBinds(config, indent, f, QuotedEmpty(Shown(f, QUOTED)));
  }

  lemma QuotedLineTrims(config: map<string, string>, indent: nat, f: Field)
    requires KeyOk(f.key) && '#' !in f.value && '\n' !in f.value && !Bare(f.value, TRIMMED) && f.key !in config
    ensures var loaded := Load(config, Unlines([Line(indent, Shown(f, QUOTED), "")]));
      f.key in loaded ==> loaded[f.key] != f.value
  {
    LoadLine(config, Line(indent, Shown(f, QUOTED), ""));
    LexQuoted(indent, f);
    StripBare(f.value, TRIMMED);
  }

  /**
   * A quoted value written to a file comes back exactly when it holds no '#' and no newline, and has no quote or blank
   * at an end.
   */
  lemma QuotedValueSurvivesIff(config: map<string, string>, indent: nat, f: Field)
    requires KeyOk(f.key) && f.key !in config
    ensures var loaded := Load(config, Unlines([Line(indent, Shown(f, QUOTED), "")]));
      (f.key in loaded && loaded[f.key] == f.value)
      <==> ('#' !in f.value && '\n' !in f.value && Bare(f.value, TRIMMED))
  {
    if '#' in f.value || '\n' in f.value {
      LoadedValuesArePlain(config, Unlines([Line(indent, Shown(f, QUOTED), "")]), f.key);
    } else if Bare(f.value, TRIMMED) {
      QuotedLineLoads(config, indent, f);
    } else {
      QuotedLineTrims(config, indent, f);
    }
  }
}
