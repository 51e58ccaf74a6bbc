/** What the dotted keys are: names joined by dots, read from the outermost section in. */
module ConfigKeys {
  import opened Text
  import opened ConfigParser

  /** The names with a dot between each two. */
  function Joined(names: seq<string>): string {
    if names == [] then ""
    else if |names| == 1 then names[0]
    else names[0] + "." + Joined(names[1..])
  }

  function Names(stack: seq<Header>): (names: seq<string>)
    ensures |names| == |stack|
  {
    seq(|stack|, i requires 0 <= i < |stack| => stack[i].name)
  }

  /** Empty names count only behind a name that is not. */
  function Lead(names: seq<string>): seq<string> {
    if names != [] && names[0] == "" then Lead(names[1..]) else names
  }

  lemma {:induction false} JoinedSnoc(names: seq<string>, name: string)
    requires names != []
    ensures Joined(names + [name]) == Joined(names) + "." + name
  {
    var all := names + [name];
    if |names| == 1 {
      assert all[1..] == [name];
    } else {
      JoinedSnoc(names[1..], name);
      assert all[1..] == names[1..] + [name];
      calc {
        Joined(all);
        names[0] + "." + (Joined(names[1..]) + "." + name);
        (names[0] + "." + Joined(names[1..])) + "." + name;
        Joined(names) + "." + name;
      }
    }
  }

  lemma JoinedIsNamed(names: seq<string>)
    requires names != [] && names[0] != ""
    ensures Joined(names) != ""
  {
  }

  lemma {:induction false} LeadSnoc(names: seq<string>, name: string)
    ensures Lead(names + [name])
         == if Lead(names) != [] then Lead(names) + [name] else if name == "" then [] else [name]
    ensures Lead(names) != [] ==> Lead(names)[0] != ""
  {
    if names == [] {
      assert names + [name] == [name];
    } else {
      LeadSnoc(names[1..], name);
      assert (names + [name])[1..] == names[1..] + [name];
    }
  }

  /** One more name behind a section. */
  lemma PathIsJoined(names: seq<string>, name: string)
    requires names != [] ==> names[0] != ""
    ensures Path(Joined(names), name) == Joined(names + [name])
  {
    if names == [] {
      assert names + [name] == [name];
    } else {
      JoinedSnoc(names, name);
      JoinedIsNamed(names);
    }
  }

  /** The open section is the names of its headers from the outermost in, joined by dots. */
  lemma {:induction false} SectionIsJoined(stack: seq<Header>)
    ensures CurrentSection(stack) == Joined(Lead(Names(stack)))
  {
    if stack != [] {
      var init, last := stack[..|stack| - 1], stack[|stack| - 1].name;
      SectionIsJoined(init);
      assert Names(stack) == Names(init) + [last];
      LeadSnoc(Names(init), last);
      PathIsJoined(Lead(Names(init)), last);
    }
  }

  /** A plain line binds the names of the sections it is in and its own, joined by dots. */
  lemma PlainBinds(s: State, indent: nat, f: Field, quotedEmpty: bool)
    requires s.listSection == "" && (f.value != "" || quotedEmpty)
    ensures Step(s, Plain(indent, Some(f), quotedEmpty)).config
         == s.config[Joined(Lead(Names(PopTo(s.stack, indent))) + [f.key]) := f.value]
  {
    var stack := PopTo(s.stack, indent);
    SectionIsJoined(stack);
    LeadSnoc(Names(stack), f.key);
    PathIsJoined(Lead(Names(stack)), f.key);
  }

  lemma ItemKeyIsJoined(section: string, n: nat, key: string)
    ensures ItemKey(section, n, key) == Joined([section, NatToString(n), key])
  {
    var names := [section, NatToString(n), key];
    assert names[1..] == [NatToString(n), key] && names[1..][1..] == [key];
    assert Joined(names[1..]) == NatToString(n) + "." + key;
  }

  lemma {:induction false} ItemPathIsJoined(names: seq<string>, n: nat, key: string)
    requires names != [] && names[0] != ""
    ensures ItemKey(Joined(names), n, key) == Joined(names + [NatToString(n), key])
  {
    JoinedSnoc(names, NatToString(n));
    JoinedSnoc(names + [NatToString(n)], key);
    assert names + [NatToString(n), key] == names + [NatToString(n)] + [key];
  }
}
