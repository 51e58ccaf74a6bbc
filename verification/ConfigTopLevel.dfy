/** What becomes of a list that stands under no section. */
module ConfigTopLevel {
  import opened ConfigParser
  import opened ConfigRoundTrip
  import opened Text

  /** Every entry after the first of each record has a value; without one it would open a section. */
  predicate Valued(items: seq<Record>) {
    forall r, e | r in items && e in r.rest :: e.field.value != "" || e.style.quoted
  }

  predicate ItemsOk(items: seq<Record>, indent: nat) {
    Valued(items) && forall r | r in items :: RecordOk(r, indent)
  }

  // ----- what such a list loads as -----

  function PlainEntries(entries: seq<Entry>): Bindings {
    if entries == [] then [] else [(entries[0].field.key, entries[0].field.value)] + PlainEntries(entries[1..])
  }

  /** Every dash line is item 0 again, and every line after it is a plain key. */
  function TopLevel(items: seq<Record>): Bindings {
    if items == [] then []
    else
      [(ItemKey("", 0, items[0].first.field.key), items[0].first.field.value)]
      + PlainEntries(items[0].rest) + TopLevel(items[1..])
  }

  /** Under no section and in no list. */
  predicate Outside(s: State) {
    s.listSection == "" && s.stack == []
  }

  lemma DashOutside(s: State, indent: nat, f: Field, style: Style)
    requires Outside(s) && FieldOk(f, style)
    ensures var s' := Step(s, Lex(Line(indent, "- " + Shown(f, style), style.tail)));
      Outside(s') && s'.config == s.config[ItemKey("", 0, f.key) := f.value]
  {
    LexDash(indent, f, style);
  }

  lemma {:induction false} EntriesOutside(s: State, entries: seq<Entry>)
    requires Outside(s) && forall e | e in entries ::
        FieldOk(e.field, e.style) && (e.field.value != "" || e.style.quoted)
    ensures var s' := Run(s, PrintEntries(entries));
      Outside(s') && s'.config == PutAll(s.config, PlainEntries(entries))
    decreases |entries|
  {
    if entries != [] {
      var e := entries[0];
      LexField(e.indent, e.field, e.style);
      EntriesOutside(Step(s, Lex(PrintEntries(entries)[0])), entries[1..]);
    }
  }

  lemma RecordOutside(s: State, r: Record, indent: nat)
    requires Outside(s) && ItemsOk([r], indent)
    ensures var s' := Run(s, PrintItems([r], indent));
      Outside(s')
      && s'.config
         == PutAll(s.config, [(ItemKey("", 0, r.first.field.key), r.first.field.value)] + PlainEntries(r.rest))
  {
    var lines := PrintItems([r], indent);
    assert r in [r];
    PrintedRecord(r, indent, "", 0);
    DashOutside(s, indent, r.first.field, r.first.style);
    RunHead(s, lines);
    EntriesOutside(Step(s, Lex(lines[0])), r.rest);
  }

  lemma {:induction false} ItemsOutside(s: State, items: seq<Record>, indent: nat)
    requires Outside(s) && ItemsOk(items, indent)
    ensures var s' := Run(s, PrintItems(items, indent));
      Outside(s') && s'.config == PutAll(s.config, TopLevel(items))
    decreases |items|
  {
    if items != [] {
      var r, rest := items[0], items[1..];
      var here := [(ItemKey("", 0, r.first.field.key), r.first.field.value)] + PlainEntries(r.rest);
      assert ItemsOk([r], indent) && ItemsOk(rest, indent);
      RecordOutside(s, r, indent);
      ItemsOutside(Run(s, PrintItems([r], indent)), rest, indent);
      ItemsSplit(items, indent, "", 0);
      RunConcat(s, PrintItems([r], indent), PrintItems(rest, indent));
      PutAllConcat(s.config, here, TopLevel(rest));
    }
  }

  /** At top level the text of a list loads every item as item 0, and its continuation lines as plain keys. */
  lemma TopLevelListLoadsAs(config: map<string, string>, items: seq<Record>, indent: nat)
    requires ItemsOk(items, indent)
    ensures Load(config, Unlines(PrintItems(items, indent))) == PutAll(config, TopLevel(items))
  {
    ItemsAreLines(items, indent);
    LinesOfUnlines(PrintItems(items, indent));
    ItemsOutside(Start(config), items, indent);
  }

  // ----- which keys are bound -----

  /** The names on the dash lines, and those on the lines after them with the number of their item. */
  predicate IsFirst(items: seq<Record>, i: nat, name: string) {
    i < |items| && items[i].first.field.key == name
  }

  predicate IsRest(items: seq<Record>, i: nat, name: string) {
    i < |items| && exists j :: 0 <= j < |items[i].rest| && items[i].rest[j].field.key == name
  }

  predicate IsName(items: seq<Record>, i: nat, name: string) {
    IsFirst(items, i, name) || IsRest(items, i, name)
  }

  predicate Binds(bs: Bindings, key: string) {
    exists i :: 0 <= i < |bs| && bs[i].0 == key
  }

  lemma BindsOne(b: (string, string), key: string)
    ensures Binds([b], key) <==> b.0 == key
  {
    assert [b][0] == b;
  }

  lemma BindsConcat(a: Bindings, b: Bindings, key: string)
    ensures Binds(a + b, key) <==> Binds(a, key) || Binds(b, key)
  {
    if i :| 0 <= i < |a| && a[i].0 == key {
      assert (a + b)[i].0 == key;
    }
    if i :| 0 <= i < |b| && b[i].0 == key {
      assert (a + b)[|a| + i].0 == key;
    }
  }

  lemma {:induction false} BoundKeys(config: map<string, string>, bs: Bindings, key: string)
    ensures key in PutAll(config, bs) <==> key in config || Binds(bs, key)
    decreases |bs|
  {
    if bs != [] {
      BoundKeys(config[bs[0].0 := bs[0].1], bs[1..], key);
      BindsConcat([bs[0]], bs[1..], key);
      assert bs == [bs[0]] + bs[1..];
      BindsOne(bs[0], key);
    }
  }

  predicate LoadedAt(items: seq<Record>, i: nat, key: string) {
    (i < |items| && key == ItemKey("", 0, items[i].first.field.key)) || IsRest(items, i, key)
  }

  predicate EntryMeant(entries: seq<Entry>, n: nat, key: string) {
    exists j :: 0 <= j < |entries| && key == ItemKey("", n, entries[j].field.key)
  }

  predicate MeantAt(items: seq<Record>, n: nat, i: nat, key: string) {
    i < |items| && EntryMeant([items[i].first] + items[i].rest, n + i, key)
  }

  ghost predicate Loaded(items: seq<Record>, key: string) {
    exists i :: LoadedAt(items, i, key)
  }

  ghost predicate Meant(items: seq<Record>, n: nat, key: string) {
    exists i :: MeantAt(items, n, i, key)
  }

  lemma {:induction false} PlainBinds(entries: seq<Entry>, key: string)
    ensures Binds(PlainEntries(entries), key) <==> exists j :: 0 <= j < |entries| && entries[j].field.key == key
  {
    if entries != [] {
      PlainBinds(entries[1..], key);
      BindsConcat([(entries[0].field.key, entries[0].field.value)], PlainEntries(entries[1..]), key);
      BindsOne((entries[0].field.key, entries[0].field.value), key);
      assert forall j | 0 < j < |entries| :: entries[j] == entries[1..][j - 1];
      assert forall j | 0 <= j < |entries[1..]| :: entries[1..][j] == entries[j + 1];
    }
  }

  lemma {:induction false} EntriesBind(entries: seq<Entry>, n: nat, key: string)
    ensures Binds(FlattenEntries(entries, "", n), key) <==> EntryMeant(entries, n, key)
  {
    if entries != [] {
      var first := (ItemKey("", n, entries[0].field.key), entries[0].field.value);
      EntriesBind(entries[1..], n, key);
      BindsConcat([first], FlattenEntries(entries[1..], "", n), key);
      BindsOne(first, key);
      assert forall j | 0 < j < |entries| :: entries[j] == entries[1..][j - 1];
      assert forall j | 0 <= j < |entries[1..]| :: entries[1..][j] == entries[j + 1];
    }
  }

  lemma LoadedSplit(items: seq<Record>, key: string)
    requires items != []
    ensures Loaded(items, key) <==> LoadedAt(items, 0, key) || Loaded(items[1..], key)
  {
    if i: nat :| LoadedAt(items, i, key) {
      assert i > 0 ==> LoadedAt(items[1..], i - 1, key);
    }
    if i: nat :| LoadedAt(items[1..], i, key) {
      assert LoadedAt(items, i + 1, key);
    }
  }

  lemma MeantSplit(items: seq<Record>, n: nat, key: string)
    requires items != []
    ensures Meant(items, n, key) <==> MeantAt(items, n, 0, key) || Meant(items[1..], n + 1, key)
  {
    var rest, m := items[1..], n + 1;
    if i: nat :| MeantAt(items, n, i, key) {
      assert i > 0 ==> MeantAt(rest, m, i - 1, key);
    }
    if i: nat :| MeantAt(rest, m, i, key) {
      assert MeantAt(items, n, i + 1, key);
    }
  }

  lemma {:induction false} TopLevelBinds(items: seq<Record>, key: string)
    ensures Binds(TopLevel(items), key) <==> Loaded(items, key)
  {
    if items != [] {
      var r := items[0];
      var first := (ItemKey("", 0, r.first.field.key), r.first.field.value);
      TopLevelBinds(items[1..], key);
      PlainBinds(r.rest, key);
      BindsConcat([first], PlainEntries(r.rest), key);
      BindsConcat([first] + PlainEntries(r.rest), TopLevel(items[1..]), key);
      BindsOne(first, key);
      LoadedSplit(items, key);
    }
  }

  lemma {:induction false} ItemsBind(items: seq<Record>, n: nat, key: string)
    ensures Binds(FlattenItems(items, "", n), key) <==> Meant(items, n, key)
    decreases |items|
  {
    if items != [] {
      var entries := [items[0].first] + items[0].rest;
      ItemsBind(items[1..], n + 1, key);
      EntriesBind(entries, n, key);
      BindsConcat(FlattenEntries(entries, "", n), FlattenItems(items[1..], "", n + 1), key);
      MeantSplit(items, n, key);
    }
  }

  // ----- the two never bind the same keys, but for a single item on a line of its own -----

  ghost predicate SameKeys(items: seq<Record>) {
    forall key :: Loaded(items, key) <==> Meant(items, 0, key)
  }

  lemma ItemKeyShape(i: nat, x: string, y: string)
    ensures |ItemKey("", i, x)| >= |x| + 3
    ensures ItemKey("", i, x) == ItemKey("", 0, y) <==> i == 0 && x == y
  {
    NumeralStart(i);
    assert NatToString(0) == "0";
    var a, b := ItemKey("", i, x), ItemKey("", 0, y);
    assert a == "." + NatToString(i) + "." + x && b == ".0." + y;
    assert a[1] == NatToString(i)[0] && b[1] == '0';
    if i == 0 {
      assert a[3..] == x && b[3..] == y;
    }
  }

  lemma NameIsMeant(items: seq<Record>, i: nat, name: string)
    requires IsName(items, i, name)
    ensures Meant(items, 0, ItemKey("", i, name))
  {
    var entries := [items[i].first] + items[i].rest;
    if IsFirst(items, i, name) {
      assert entries[0].field.key == name;
    } else {
      var j :| 0 <= j < |items[i].rest| && items[i].rest[j].field.key == name;
      assert entries[j + 1].field.key == name;
    }
    assert MeantAt(items, 0, i, ItemKey("", i, name));
  }

  lemma MeantIsName(items: seq<Record>, key: string) returns (i: nat, name: string)
    requires Meant(items, 0, key)
    ensures IsName(items, i, name) && key == ItemKey("", i, name)
  {
    i :| MeantAt(items, 0, i, key);
    var entries := [items[i].first] + items[i].rest;
    var j :| 0 <= j < |entries| && key == ItemKey("", i, entries[j].field.key);
    name := entries[j].field.key;
    if j > 0 {
      assert items[i].rest[j - 1].field.key == name;
    }
  }

  /** A name of a continuation line is itself a meant key, so it holds a shorter name. */
  lemma RestHoldsShorter(items: seq<Record>, i: nat, name: string) returns (i': nat, shorter: string)
    requires SameKeys(items) && IsRest(items, i, name)
    ensures IsName(items, i', shorter) && |shorter| < |name|
  {
    assert LoadedAt(items, i, name);
    i', shorter := MeantIsName(items, name);
    ItemKeyShape(i', shorter, "");
  }

  /** So no name can be shorter than that of the first dash line. */
  lemma {:induction false} NothingShorter(items: seq<Record>, i: nat, name: string)
    requires SameKeys(items) && items != [] && IsName(items, i, name) && |name| < |items[0].first.field.key|
    ensures false
    decreases |name|
  {
    if IsRest(items, i, name) {
      var i', shorter := RestHoldsShorter(items, i, name);
      NothingShorter(items, i', shorter);
    } else {
      assert LoadedAt(items, i, ItemKey("", 0, name));
      var i', x := MeantIsName(items, ItemKey("", 0, name));
      ItemKeyShape(i', x, name);
      var i'', shorter := RestHoldsShorter(items, 0, name);
      NothingShorter(items, i'', shorter);
    }
  }

  /** More than the length of any name. */
  function Longest(items: seq<Record>): nat {
    if items == [] then 0 else |items[0].first.field.key| + LongestEntry(items[0].rest) + Longest(items[1..])
  }

  function LongestEntry(entries: seq<Entry>): nat {
    if entries == [] then 0 else |entries[0].field.key| + LongestEntry(entries[1..])
  }

  lemma {:induction false} EntryIsShort(entries: seq<Entry>, j: nat)
    requires j < |entries|
    ensures |entries[j].field.key| <= LongestEntry(entries)
  {
    if j > 0 {
      EntryIsShort(entries[1..], j - 1);
    }
  }

  lemma {:induction false} RestIsShort(items: seq<Record>, i: nat, name: string)
    requires IsRest(items, i, name)
    ensures |name| <= Longest(items)
    decreases i
  {
    if i > 0 {
      assert IsRest(items[1..], i - 1, name);
      RestIsShort(items[1..], i - 1, name);
    } else {
      var j :| 0 <= j < |items[0].rest| && items[0].rest[j].field.key == name;
      EntryIsShort(items[0].rest, j);
    }
  }

  /** A meant key that is no item 0 is loaded from a continuation line. */
  lemma LoadedFromRest(items: seq<Record>, i: nat, name: string) returns (i': nat)
    requires SameKeys(items) && IsName(items, i, name)
    requires i > 0 || forall f | 0 <= f < |items| :: items[f].first.field.key != name
    ensures IsRest(items, i', ItemKey("", i, name))
  {
    NameIsMeant(items, i, name);
    i' :| LoadedAt(items, i', ItemKey("", i, name));
    if !IsRest(items, i', ItemKey("", i, name)) {
      ItemKeyShape(i, name, items[i'].first.field.key);
    }
  }

  /** Longer and longer names of continuation lines lead to one that is the name of the first dash line. */
  lemma {:induction false} FirstIsRest(items: seq<Record>, i: nat, name: string) returns (i': nat)
    requires SameKeys(items) && IsRest(items, i, name)
    ensures IsRest(items, i', items[0].first.field.key)
    decreases Longest(items) - |name|
  {
    RestIsShort(items, i, name);
    ItemKeyShape(i, name, "");
    if name == items[0].first.field.key {
      i' := i;
    } else if i > 0 || forall f | 0 <= f < |items| :: items[f].first.field.key != name {
      i' := LoadedFromRest(items, i, name);
      RestIsShort(items, i', ItemKey("", i, name));
      i' := FirstIsRest(items, i', ItemKey("", i, name));
    } else {
      var f :| 0 <= f < |items| && items[f].first.field.key == name;
      ItemKeyShape(f, name, "");
      i' := LoadedFromRest(items, f, name);
      RestIsShort(items, i', ItemKey("", f, name));
      i' := FirstIsRest(items, i', ItemKey("", f, name));
    }
  }

  lemma NoContinuation(items: seq<Record>, i: nat, name: string)
    requires IsRest(items, i, name)
    ensures !SameKeys(items)
  {
    if SameKeys(items) {
      var i' := FirstIsRest(items, i, name);
      var i'', shorter := RestHoldsShorter(items, i', items[0].first.field.key);
      NothingShorter(items, i'', shorter);
    }
  }

  lemma NoSecondItem(items: seq<Record>)
    requires |items| > 1 && forall i, name :: !IsRest(items, i, name)
    ensures !SameKeys(items)
  {
    if SameKeys(items) {
      var i := LoadedFromRest(items, 1, items[1].first.field.key);
    }
  }

  predicate SingleLine(items: seq<Record>) {
    |items| <= 1 && forall r | r in items :: r.rest == []
  }

  lemma SingleLineLoads(items: seq<Record>)
    requires SingleLine(items)
    ensures TopLevel(items) == FlattenItems(items, "", 0)
  {
    if items != [] {
      var r := items[0];
      assert items[1..] == [] && r in items && [r.first] + r.rest == [r.first] && [r.first][1..] == [];
      assert FlattenEntries([r.first], "", 0) == [(ItemKey("", 0, r.first.field.key), r.first.field.value)];
    }
  }

  /** A list at top level loads as the list it is exactly if it is at most one item on one line. */
  lemma TopLevelListLoadsIff(items: seq<Record>, indent: nat)
    requires ItemsOk(items, indent)
    ensures Load(map[], Unlines(PrintItems(items, indent))) == PutAll(map[], FlattenItems(items, "", 0))
        <==> SingleLine(items)
  {
    TopLevelListLoadsAs(map[], items, indent);
    if SingleLine(items) {
      SingleLineLoads(items);
    } else {
      KeysDiffer(items);
      var key :| Loaded(items, key) != Meant(items, 0, key);
      TopLevelBinds(items, key);
      ItemsBind(items, 0, key);
      BoundKeys(map[], TopLevel(items), key);
      BoundKeys(map[], FlattenItems(items, "", 0), key);
    }
  }

  lemma KeysDiffer(items: seq<Record>)
    requires !SingleLine(items)
    ensures !SameKeys(items)
  {
    if i, name :| IsRest(items, i, name) {
      NoContinuation(items, i, name);
    } else {
      if |items| <= 1 {
        var r :| r in items && r.rest != [];
        assert items[0] == r && IsRest(items, 0, r.rest[0].field.key);
      }
      NoSecondItem(items);
    }
  }
}
