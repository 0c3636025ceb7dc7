/** external_executor.go: variables substituted into a command template one after the other, in map order. */
module Templates {
  import opened Common

  datatype Part = Text(text: string) | Hole(name: string)

  function RenderPart(p: Part): string {
    match p
    case Text(t) => t
    case Hole(n) => "{" + n + "}"
  }

  function Render(parts: seq<Part>): string {
    if parts == [] then "" else RenderPart(parts[0]) + Render(parts[1..])
  }

  predicate BraceFree(s: string) {
    '{' !in s && '}' !in s
  }

  predicate WellFormed(parts: seq<Part>) {
    forall p :: p in parts ==> BraceFree(if p.Text? then p.text else p.name)
  }

  predicate BraceFreeNames(vars: map<string, string>) {
    forall k :: k in vars ==> BraceFree(k)
  }

  function Placeholder(key: string): (s: string)
    ensures s != "" && s[0] == '{'
  {
    "{" + key + "}"
  }

  /** strings.ReplaceAll: leftmost matches, not overlapping. */
  function ReplaceAll(s: string, pattern: string, value: string): string
    requires pattern != ""
    decreases |s|
  {
    if |s| < |pattern| then s
    else if s[..|pattern|] == pattern then value + ReplaceAll(s[|pattern|..], pattern, value)
    else [s[0]] + ReplaceAll(s[1..], pattern, value)
  }

  /** All the names in `done` filled in at once. */
  function Fill(parts: seq<Part>, vars: map<string, string>, done: set<string>): seq<Part> {
    seq(|parts|, i requires 0 <= i < |parts| =>
      if parts[i].Hole? && parts[i].name in done && parts[i].name in vars then Text(vars[parts[i].name]) else parts[i])
  }

  /** The one-pass, simultaneous reading of a template. */
  function Substitute(parts: seq<Part>, vars: map<string, string>): string {
    Render(Fill(parts, vars, vars.Keys))
  }

  predicate MatchesAt(s: string, i: nat, pattern: string) {
    i <= |s| && pattern <= s[i..]
  }

  /** Text in which no match begins is passed over. */
  lemma {:induction false} SkipUnmatched(t: string, rest: string, pattern: string, value: string)
    requires pattern != "" && forall i :: 0 <= i < |t| ==> !MatchesAt(t + rest, i, pattern)
    ensures ReplaceAll(t + rest, pattern, value) == t + ReplaceAll(rest, pattern, value)
  {
    if t == "" {
      assert t + rest == rest;
    } else {
      TailUnmatched(t, rest, pattern);
      SkipUnmatched(t[1..], rest, pattern, value);
      ReplaceStep(t + rest, pattern, value);
      assert t + ReplaceAll(rest, pattern, value) == [t[0]] + (t[1..] + ReplaceAll(rest, pattern, value));
    }
  }

  lemma TailUnmatched(t: string, rest: string, pattern: string)
    requires t != "" && forall i :: 0 <= i < |t| ==> !MatchesAt(t + rest, i, pattern)
    ensures (t + rest)[1..] == t[1..] + rest && (t + rest)[0] == t[0] && !(pattern <= t + rest)
    ensures forall i :: 0 <= i < |t[1..]| ==> !MatchesAt(t[1..] + rest, i, pattern)
  {
    var s := t + rest;
    assert s[1..] == t[1..] + rest;
    assert !MatchesAt(s, 0, pattern) && s[0..] == s;
    forall i | 0 <= i < |t[1..]| ensures !MatchesAt(s[1..], i, pattern) {
      assert s[i + 1..] == s[1..][i..];
      assert !MatchesAt(s, i + 1, pattern);
    }
  }

  /** Where the string does not start with the pattern, its first character stays. */
  lemma ReplaceStep(s: string, pattern: string, value: string)
    requires pattern != "" && s != "" && !(pattern <= s)
    ensures ReplaceAll(s, pattern, value) == [s[0]] + ReplaceAll(s[1..], pattern, value)
  {
    if |s| < |pattern| {
      assert [s[0]] + s[1..] == s;
    }
  }

  lemma SkipText(t: string, rest: string, pattern: string, value: string)
    requires pattern != "" && pattern[0] == '{' && '{' !in t
    ensures ReplaceAll(t + rest, pattern, value) == t + ReplaceAll(rest, pattern, value)
  {
    forall i | 0 <= i < |t| ensures !MatchesAt(t + rest, i, pattern) {
      assert (t + rest)[i..][0] == t[i] && t[i] in t;
    }
    SkipUnmatched(t, rest, pattern, value);
  }

  lemma ReplaceHole(key: string, rest: string, value: string)
    ensures ReplaceAll(Placeholder(key) + rest, Placeholder(key), value) ==
      value + ReplaceAll(rest, Placeholder(key), value)
  {
    var s := Placeholder(key) + rest;
    assert s[..|Placeholder(key)|] == Placeholder(key) && s[|Placeholder(key)|..] == rest;
  }

  /** Two different brace-free names never match at the same opening brace. */
  lemma SkipOtherHole(name: string, key: string, rest: string, value: string)
    requires BraceFree(name) && BraceFree(key) && name != key
    ensures ReplaceAll(Placeholder(name) + rest, Placeholder(key), value)
      == Placeholder(name) + ReplaceAll(rest, Placeholder(key), value)
  {
    var s, pattern := Placeholder(name) + rest, Placeholder(key);
    forall i | 0 <= i < |Placeholder(name)| ensures !MatchesAt(s, i, pattern) {
      assert s[i..][0] == s[i] == Placeholder(name)[i];
      if i == 0 {
        assert s[0..] == s;
        if pattern <= s { NamesAgree(name, key, rest); }
      } else {
        assert s[i] != '{' by {
          assert i <= |name| ==> s[i] == name[i - 1] && name[i - 1] in name;
        }
      }
    }
    SkipUnmatched(Placeholder(name), rest, pattern, value);
  }

  lemma NamesAgree(name: string, key: string, rest: string)
    requires BraceFree(name) && BraceFree(key)
    requires Placeholder(key) <= Placeholder(name) + rest
    ensures name == key
  {
    var s, p := Placeholder(name) + rest, Placeholder(key);
    assert p == s[..|p|];
    FirstClosing(name, rest);
    FirstClosing(key, s[|p|..]);
    assert Placeholder(key) + s[|p|..] == s;
    assert name == s[1..|name| + 1] && key == s[1..|key| + 1];
  }

  /** The first closing brace after a placeholder's opening one ends it. */
  lemma FirstClosing(name: string, rest: string)
    requires BraceFree(name)
    ensures
      var s := Placeholder(name) + rest;
      && s[|name| + 1] == '}' && s[1..|name| + 1] == name
      && forall i :: 1 <= i <= |name| ==> s[i] != '}'
  {
    var s := Placeholder(name) + rest;
    forall i | 1 <= i <= |name| ensures s[i] != '}' {
      assert s[i] == name[i - 1] && name[i - 1] in name;
    }
  }

  // ---------- when one replacement fills exactly the holes of its name ----------

  /** The placeholder stands inside a value. */
  predicate Holds(value: string, key: string) {
    exists i: nat :: i < |value| && MatchesAt(value, i, Placeholder(key))
  }

  /** The value ends in an opening brace and the first `m` characters of the name. */
  predicate Opens(value: string, key: string, m: nat) {
    m <= |key| && m + 1 <= |value| && value[|value| - m - 1..] == "{" + key[..m]
  }

  /** The value starts with the name from its `n`-th character on, and a closing brace. */
  predicate Closes(value: string, key: string, n: nat) {
    n <= |key| && key[n..] + "}" <= value
  }

  /** From the values of these names, with text between them, the placeholder of `key` can form. */
  ghost predicate CanForm(vars: map<string, string>, names: set<string>, key: string) {
    || (exists j :: j in names && j in vars && Holds(vars[j], key))
    || (exists i, j, m: nat, n: nat :: i in names && j in names && FormAcross(vars, i, j, key, m, n))
  }

  predicate FormAcross(vars: map<string, string>, i: string, j: string, key: string, m: nat, n: nat) {
    m <= n && i in vars && j in vars && Opens(vars[i], key, m) && Closes(vars[j], key, n)
  }

  /** A closing part that begins a filled-in template ends inside one of the values. */
  lemma {:induction false} ClosedByValue(parts: seq<Part>, vars: map<string, string>, done: set<string>, key: string,
                                        m: nat) returns (j: string, n: nat)
    requires WellFormed(parts) && BraceFree(key) && m <= |key|
    requires key[m..] + "}" <= Render(Fill(parts, vars, done))
    ensures j in done && j in vars && m <= n && Closes(vars[j], key, n)
  {
    NothingCloses(key[m..] + "}", Fill(parts, vars, done));
    RenderHead(parts, vars, done);
    var t, rest := RenderPart(Fill(parts, vars, done)[0]), Render(Fill(parts[1..], vars, done));
    FirstIsNotBrace(key, m, t, rest);
    if |key| - m + 1 <= |t| {
      CloseInside(key, m, t, rest);
      HoleAtHead(parts, vars, done);
      j, n := parts[0].name, m;
    } else {
      RestCloses(key, m, t, rest);
      j, n := ClosedByValue(parts[1..], vars, done, key, m + |t|);
    }
  }

  lemma RenderHead(parts: seq<Part>, vars: map<string, string>, done: set<string>)
    requires parts != []
    ensures Render(Fill(parts, vars, done)) ==
      RenderPart(Fill(parts, vars, done)[0]) + Render(Fill(parts[1..], vars, done))
  {
    assert Fill(parts, vars, done)[1..] == Fill(parts[1..], vars, done);
  }

  /** A first part that holds a closing brace but does not start with an opening one is a value. */
  lemma HoleAtHead(parts: seq<Part>, vars: map<string, string>, done: set<string>)
    requires parts != [] && WellFormed(parts)
    requires var t := RenderPart(Fill(parts, vars, done)[0]); '}' in t && t[0] != '{'
    ensures parts[0].Hole? && parts[0].name in done && parts[0].name in vars
    ensures RenderPart(Fill(parts, vars, done)[0]) == vars[parts[0].name]
  {
    assert parts[0] in parts;
  }

  lemma NothingCloses(close: string, a: seq<Part>)
    requires close != "" && close <= Render(a)
    ensures a != []
  {
  }

  lemma CloseInside(key: string, m: nat, t: string, rest: string)
    requires m <= |key| && key[m..] + "}" <= t + rest && |key| - m + 1 <= |t|
    ensures key[m..] + "}" <= t && '}' in t
  {
    var close := key[m..] + "}";
    assert close == (t + rest)[..|close|] == t[..|close|];
    assert t[|close| - 1] == close[|close| - 1] == '}';
  }

  lemma FirstIsNotBrace(key: string, m: nat, t: string, rest: string)
    requires BraceFree(key) && m <= |key| && key[m..] + "}" <= t + rest
    ensures t != "" ==> t[0] != '{'
  {
    var close := key[m..] + "}";
    assert close[0] == (t + rest)[0];
    assert m < |key| ==> close[0] == key[m] && key[m] in key;
  }

  lemma RestCloses(key: string, m: nat, t: string, rest: string)
    requires m <= |key| && key[m..] + "}" <= t + rest && |t| < |key| - m + 1
    ensures m + |t| <= |key| && key[m + |t|..] + "}" <= rest
  {
    var close := key[m..] + "}";
    assert close == (t + rest)[..|close|];
    assert close[|t|..] == key[m + |t|..] + "}";
    assert (t + rest)[..|close|][|t|..] == rest[..|close| - |t|];
  }

  /** A match that begins inside a value lies in it, or opens there and is closed by another value. */
  lemma NoMatchInValue(parts: seq<Part>, vars: map<string, string>, done: set<string>, key: string, j: string, at: nat)
    requires WellFormed(parts) && BraceFree(key) && j in done && j in vars && at < |vars[j]|
    requires !CanForm(vars, done, key)
    ensures !MatchesAt(vars[j] + Render(Fill(parts, vars, done)), at, Placeholder(key))
  {
    var t, rest, p := vars[j], Render(Fill(parts, vars, done)), Placeholder(key);
    if MatchesAt(t + rest, at, p) {
      if at + |p| <= |t| {
        MatchInside(t, rest, at, p);
        assert Holds(t, key);
      } else {
        var m := |t| - at - 1;
        MatchAcross(t, rest, at, key, m);
        var i, n := ClosedByValue(parts, vars, done, key, m);
        assert FormAcross(vars, j, i, key, m, n);
      }
    }
  }

  lemma MatchInside(t: string, rest: string, at: nat, p: string)
    requires at + |p| <= |t| && MatchesAt(t + rest, at, p)
    ensures MatchesAt(t, at, p)
  {
    assert p == (t + rest)[at..][..|p|] == t[at..][..|p|];
  }

  lemma MatchAcross(t: string, rest: string, at: nat, key: string, m: nat)
    requires at < |t| < at + |key| + 2 && m == |t| - at - 1 && MatchesAt(t + rest, at, Placeholder(key))
    ensures Opens(t, key, m) && key[m..] + "}" <= rest
  {
    var p := Placeholder(key);
    var s := (t + rest)[at..];
    assert s == t[at..] + rest;
    assert p == s[..|p|];
    assert p[..m + 1] == "{" + key[..m] && p[m + 1..] == key[m..] + "}";
    assert s[..|p|][..m + 1] == t[at..];
    assert s[..|p|][m + 1..] == rest[..|p| - m - 1];
  }

  /** One ReplaceAll fills exactly the holes of its name, when no placeholder of it can form. */
  lemma {:induction false} FillOne(parts: seq<Part>, vars: map<string, string>, done: set<string>, key: string)
    requires WellFormed(parts) && BraceFree(key) && key in vars && key !in done && !CanForm(vars, done, key)
    ensures ReplaceAll(Render(Fill(parts, vars, done)), Placeholder(key), vars[key]) ==
      Render(Fill(parts, vars, done + {key}))
  {
    if parts == [] {
    } else {
      var pattern, value := Placeholder(key), vars[key];
      var a, b := Fill(parts, vars, done), Fill(parts, vars, done + {key});
      assert a[1..] == Fill(parts[1..], vars, done) && b[1..] == Fill(parts[1..], vars, done + {key});
      assert parts[0] in parts;
      FillOne(parts[1..], vars, done, key);
      var rest := Render(a[1..]);
      match parts[0]
      case Text(t) => SkipText(t, rest, pattern, value);
      case Hole(n) =>
        if n == key {
          ReplaceHole(key, rest, value);
        } else if n in done && n in vars {
          forall at | 0 <= at < |vars[n]| ensures !MatchesAt(vars[n] + rest, at, pattern) {
            NoMatchInValue(parts[1..], vars, done, key, n, at);
          }
          SkipUnmatched(vars[n], rest, pattern, value);
        } else {
          SkipOtherHole(n, key, rest, value);
        }
    }
  }

  /** Replacing the placeholder fills its holes and does nothing else, whatever was filled before. */
  ghost predicate FillsExactly(vars: map<string, string>, key: string)
    requires key in vars
  {
    forall parts, done :: WellFormed(parts) && key !in done ==>
      ReplaceAll(Render(Fill(parts, vars, done)), Placeholder(key), vars[key])
        == Render(Fill(parts, vars, done + {key}))
  }

  /** The value is the placeholder itself, or no placeholder can form from the values of other names. */
  ghost predicate Harmless(vars: map<string, string>, key: string)
    requires key in vars
  {
    vars[key] == Placeholder(key) || !CanForm(vars, vars.Keys - {key}, key)
  }

  ghost predicate Clean(vars: map<string, string>) {
    BraceFreeNames(vars) && forall k :: k in vars ==> Harmless(vars, k)
  }

  lemma {:induction false} ReplaceBySelf(s: string, pattern: string)
    requires pattern != ""
    ensures ReplaceAll(s, pattern, pattern) == s
    decreases |s|
  {
    if |s| >= |pattern| {
      if s[..|pattern|] == pattern {
        ReplaceBySelf(s[|pattern|..], pattern);
        assert pattern + s[|pattern|..] == s;
      } else {
        ReplaceBySelf(s[1..], pattern);
        assert [s[0]] + s[1..] == s;
      }
    }
  }

  lemma {:induction false} FillBySelf(parts: seq<Part>, vars: map<string, string>, done: set<string>, key: string)
    requires key in vars && vars[key] == Placeholder(key)
    ensures Render(Fill(parts, vars, done + {key})) == Render(Fill(parts, vars, done))
  {
    if parts != [] {
      var a, b := Fill(parts, vars, done), Fill(parts, vars, done + {key});
      assert a[1..] == Fill(parts[1..], vars, done) && b[1..] == Fill(parts[1..], vars, done + {key});
      FillBySelf(parts[1..], vars, done, key);
      assert RenderPart(a[0]) == RenderPart(b[0]);
    }
  }

  lemma {:induction false} ReplaceLength(s: string, pattern: string, value: string)
    requires pattern != ""
    ensures |value| <= |pattern| ==> |ReplaceAll(s, pattern, value)| <= |s|
    ensures |value| >= |pattern| ==> |ReplaceAll(s, pattern, value)| >= |s|
    decreases |s|
  {
    if |s| >= |pattern| {
      ReplaceLength(if s[..|pattern|] == pattern then s[|pattern|..] else s[1..], pattern, value);
    }
  }

  /** Where the pattern occurs, replacing it by anything else changes the string. */
  lemma {:induction false} ReplaceChanges(s: string, at: nat, pattern: string, value: string)
    requires pattern != "" && value != pattern && MatchesAt(s, at, pattern)
    ensures ReplaceAll(s, pattern, value) != s
    decreases |s|
  {
    assert |s| >= |pattern|;
    if s[..|pattern|] == pattern {
      var rest := s[|pattern|..];
      ReplaceLength(rest, pattern, value);
      var r := value + ReplaceAll(rest, pattern, value);
      assert |value| == |pattern| ==> r[..|pattern|] == value;
    } else {
      assert at > 0 by {
        assert s[0..] == s;
      }
      assert s[1..][at - 1..] == s[at..];
      ReplaceChanges(s[1..], at - 1, pattern, value);
      ReplaceStep(s, pattern, value);
    }
  }

  predicate HolesIn(parts: seq<Part>, names: set<string>) {
    forall p :: p in parts && p.Hole? ==> p.name in names
  }

  lemma FillSeesHoles(parts: seq<Part>, vars: map<string, string>, names: set<string>, d: set<string>, e: set<string>)
    requires HolesIn(parts, names) && names * d == names * e
    ensures Fill(parts, vars, d) == Fill(parts, vars, e)
  {
    forall i | 0 <= i < |parts| ensures Fill(parts, vars, d)[i] == Fill(parts, vars, e)[i] {
      assert parts[i] in parts;
      assert parts[i].Hole? ==> (parts[i].name in names * d <==> parts[i].name in names * e);
    }
  }

  /** A template of at most two holes in which, once they are filled, the placeholder of a third name stands. */
  lemma FormedTemplate(vars: map<string, string>, key: string) returns (parts: seq<Part>, i: string, j: string, at: nat)
    requires BraceFreeNames(vars) && key in vars && CanForm(vars, vars.Keys - {key}, key)
    ensures WellFormed(parts) && HolesIn(parts, {i, j}) && i in vars.Keys - {key} && j in vars.Keys - {key}
    ensures MatchesAt(Render(Fill(parts, vars, {i, j})), at, Placeholder(key))
  {
    if name :| name in vars.Keys - {key} && Holds(vars[name], key) {
      i, j, parts := name, name, [Hole(name)];
      RenderSingle(vars, name);
      at :| at < |vars[name]| && MatchesAt(vars[name], at, Placeholder(key));
    } else {
      var x, y, m: nat, n: nat :| x in vars.Keys - {key} && y in vars.Keys - {key} && FormAcross(vars, x, y, key, m, n);
      i, j, parts, at := x, y, [Hole(x), Text(key[m..n]), Hole(y)], |vars[x]| - m - 1;
      PairFits(vars, x, y, key, m, n);
    }
  }

  lemma PairFits(vars: map<string, string>, x: string, y: string, key: string, m: nat, n: nat)
    requires BraceFreeNames(vars) && key in vars && FormAcross(vars, x, y, key, m, n)
    ensures
      var parts := [Hole(x), Text(key[m..n]), Hole(y)];
      && WellFormed(parts) && HolesIn(parts, {x, y})
      && MatchesAt(Render(Fill(parts, vars, {x, y})), |vars[x]| - m - 1, Placeholder(key))
  {
    RenderPair(vars, x, key[m..n], y);
    FormsAcross(vars[x], key, m, n, vars[y]);
    assert forall c :: c in key[m..n] ==> c in key;
  }

  lemma RenderSingle(vars: map<string, string>, name: string)
    requires name in vars
    ensures Render(Fill([Hole(name)], vars, {name, name})) == vars[name]
  {
    var a := Fill([Hole(name)], vars, {name, name});
    assert a[0] == Text(vars[name]) && a[1..] == [] && Render([]) == "";
    assert vars[name] + "" == vars[name];
  }

  lemma RenderPair(vars: map<string, string>, x: string, mid: string, y: string)
    requires x in vars && y in vars
    ensures Render(Fill([Hole(x), Text(mid), Hole(y)], vars, {x, y})) == vars[x] + mid + vars[y]
  {
    var a := Fill([Hole(x), Text(mid), Hole(y)], vars, {x, y});
    assert a == [Text(vars[x]), Text(mid), Text(vars[y])];
    assert a[1..] == [Text(mid), Text(vars[y])] && a[1..][1..] == [Text(vars[y])] && [Text(vars[y])][1..] == [];
    assert Render([Text(vars[y])]) == vars[y] + "" == vars[y];
    assert Render(a[1..]) == mid + vars[y];
    assert vars[x] + (mid + vars[y]) == vars[x] + mid + vars[y];
  }

  lemma FormsAcross(first: string, key: string, m: nat, n: nat, second: string)
    requires m <= n && Opens(first, key, m) && Closes(second, key, n)
    ensures MatchesAt(first + key[m..n] + second, |first| - m - 1, Placeholder(key))
  {
    var s, at := first + key[m..n] + second, |first| - m - 1;
    assert s[at..] == first[at..] + key[m..n] + second;
    assert key == key[..m] + key[m..n] + key[n..];
    assert Placeholder(key) == "{" + key[..m] + key[m..n] + (key[n..] + "}");
    assert second == second[..|key| - n + 1] + second[|key| - n + 1..];
    assert s[at..] == Placeholder(key) + second[|key| - n + 1..];
  }

  /**
   * The exact condition for one name: its replacement fills exactly its holes, in every template and after any
   * other names were filled, if and only if it is harmless.
   */
  lemma FillsExactlyIff(vars: map<string, string>, key: string)
    requires BraceFreeNames(vars) && key in vars
    ensures FillsExactly(vars, key) <==> Harmless(vars, key)
  {
    if Harmless(vars, key) {
      forall parts, done | WellFormed(parts) && key !in done
        ensures ReplaceAll(Render(Fill(parts, vars, done)), Placeholder(key), vars[key])
          == Render(Fill(parts, vars, done + {key}))
      {
        HarmlessFillsOne(parts, vars, done, key);
      }
    } else {
      var parts, i, j, at := FormedTemplate(vars, key);
      var done := {i, j};
      ReplaceChanges(Render(Fill(parts, vars, done)), at, Placeholder(key), vars[key]);
      FillSeesHoles(parts, vars, done, done, done + {key});
    }
  }

  lemma HarmlessFillsOne(parts: seq<Part>, vars: map<string, string>, done: set<string>, key: string)
    requires BraceFreeNames(vars) && key in vars && Harmless(vars, key) && WellFormed(parts) && key !in done
    ensures ReplaceAll(Render(Fill(parts, vars, done)), Placeholder(key), vars[key])
      == Render(Fill(parts, vars, done + {key}))
  {
    if vars[key] == Placeholder(key) {
      ReplaceBySelf(Render(Fill(parts, vars, done)), Placeholder(key));
      FillBySelf(parts, vars, done, key);
    } else {
      FewerNames(vars, done, vars.Keys - {key}, key);
      FillOne(parts, vars, done, key);
    }
  }

  lemma FewerNames(vars: map<string, string>, few: set<string>, names: set<string>, key: string)
    requires forall j :: j in few && j in vars ==> j in names
    ensures CanForm(vars, few, key) ==> CanForm(vars, names, key)
  {
    if CanForm(vars, few, key) && !(exists j :: j in few && j in vars && Holds(vars[j], key)) {
      var i, j, m: nat, n: nat :| i in few && j in few && FormAcross(vars, i, j, key, m, n);
      assert i in names && j in names;
    }
  }

  // ---------- when every order gives the simultaneous substitution ----------

  function ReplaceInOrder(s: string, vars: map<string, string>, order: seq<string>): string
    requires forall k :: k in order ==> k in vars
  {
    if order == [] then s
    else
      var n := |order| - 1;
      ReplaceAll(ReplaceInOrder(s, vars, order[..n]), Placeholder(order[n]), vars[order[n]])
  }

  /** An order in which a map with these keys may be walked. */
  ghost predicate WalkOf(names: set<string>, order: seq<string>) {
    Distinct(order) && forall k :: k in order <==> k in names
  }

  lemma WalkSnoc(names: set<string>, order: seq<string>, k: string)
    requires WalkOf(names, order) && k !in names
    ensures WalkOf(names + {k}, order + [k])
  {
    assert forall l :: l in order + [k] <==> l in order || l == k;
  }

  lemma WalkExists(names: set<string>) returns (order: seq<string>)
    ensures WalkOf(names, order)
  {
    order := [];
    var todo := names;
    while todo != {}
      invariant todo <= names && WalkOf(names - todo, order)
      decreases |todo|
    {
      var k :| k in todo;
      WalkSnoc(names - todo, order, k);
      assert names - todo + {k} == names - (todo - {k});
      order, todo := order + [k], todo - {k};
    }
    assert names - todo == names;
  }

  lemma InOrderSnoc(s: string, vars: map<string, string>, order: seq<string>, key: string)
    requires key in vars && forall k :: k in order ==> k in vars
    ensures ReplaceInOrder(s, vars, order + [key]) ==
      ReplaceAll(ReplaceInOrder(s, vars, order), Placeholder(key), vars[key])
  {
    assert (order + [key])[..|order|] == order;
  }

  lemma {:induction false} CleanFillsInOrder(parts: seq<Part>, vars: map<string, string>, order: seq<string>)
    requires Clean(vars) && WellFormed(parts) && Distinct(order) && forall k :: k in order ==> k in vars
    ensures ReplaceInOrder(Render(parts), vars, order) == Render(Fill(parts, vars, Elems(order)))
  {
    if order == [] {
      assert Elems(order) == {} && Fill(parts, vars, {}) == parts;
    } else {
      var n := |order| - 1;
      assert order == order[..n] + [order[n]];
      CleanFillsInOrder(parts, vars, order[..n]);
      assert order[n] in order && order[n] !in Elems(order[..n]);
      HarmlessFillsOne(parts, vars, Elems(order[..n]), order[n]);
      assert Elems(order) == Elems(order[..n]) + {order[n]};
    }
  }

  lemma CleanIsExact(parts: seq<Part>, vars: map<string, string>, order: seq<string>)
    requires Clean(vars) && WellFormed(parts) && WalkOf(vars.Keys, order)
    ensures ReplaceInOrder(Render(parts), vars, order) == Substitute(parts, vars)
  {
    CleanFillsInOrder(parts, vars, order);
    assert Elems(order) == vars.Keys;
  }

  ghost predicate ExactInAllOrders(vars: map<string, string>) {
    forall parts, order: seq<string> :: WellFormed(parts) && WalkOf(vars.Keys, order) ==>
      ReplaceInOrder(Render(parts), vars, order) == Substitute(parts, vars)
  }

  /** Names without a hole in the template leave it alone. */
  lemma {:induction false} OthersDoNothing(parts: seq<Part>, vars: map<string, string>, names: set<string>,
                                          order: seq<string>)
    requires BraceFreeNames(vars) && WellFormed(parts) && HolesIn(parts, names)
    requires forall k :: k in order ==> k in vars && k !in names
    ensures ReplaceInOrder(Render(parts), vars, order) == Render(parts)
  {
    if order != [] {
      var n := |order| - 1;
      OthersDoNothing(parts, vars, names, order[..n]);
      assert order[n] in order;
      FirstFill(parts, vars, names, order[n]);
      assert Fill(parts, vars, {}) == parts;
      FillSeesHoles(parts, vars, names, {}, {order[n]});
    }
  }

  /** The first name to be filled is filled exactly: no value is there yet. */
  lemma FirstFill(parts: seq<Part>, vars: map<string, string>, names: set<string>, key: string)
    requires BraceFreeNames(vars) && WellFormed(parts) && key in vars
    ensures ReplaceAll(Render(parts), Placeholder(key), vars[key]) == Render(Fill(parts, vars, {key}))
  {
    assert Fill(parts, vars, {}) == parts;
    FillOne(parts, vars, {}, key);
    assert {} + {key} == {key};
  }

  /** What filling `i`, then `j`, after all unrelated names, makes of a template with these holes. */
  lemma FilledInOrder(parts: seq<Part>, vars: map<string, string>, others: seq<string>, i: string, j: string)
    requires BraceFreeNames(vars) && WellFormed(parts) && HolesIn(parts, {i, j}) && i in vars && j in vars
    requires forall k :: k in others ==> k in vars && k != i && k != j
    ensures ReplaceInOrder(Render(parts), vars, others + [i]) == Render(Fill(parts, vars, {i}))
    ensures ReplaceInOrder(Render(parts), vars, others + [i] + [j]) ==
      ReplaceAll(Render(Fill(parts, vars, {i})), Placeholder(j), vars[j])
  {
    OthersDoNothing(parts, vars, {i, j}, others);
    InOrderSnoc(Render(parts), vars, others, i);
    FirstFill(parts, vars, {i, j}, i);
    InOrderSnoc(Render(parts), vars, others + [i], j);
  }

  /** A name that is not harmless has a template and an order that go wrong. */
  lemma HarmfulOrder(vars: map<string, string>, key: string) returns (parts: seq<Part>, order: seq<string>)
    requires BraceFreeNames(vars) && key in vars && !Harmless(vars, key)
    ensures WellFormed(parts) && WalkOf(vars.Keys, order)
    ensures ReplaceInOrder(Render(parts), vars, order) != Substitute(parts, vars)
  {
    var i, j, at;
    parts, i, j, at := FormedTemplate(vars, key);
    FillSeesHoles(parts, vars, {i, j}, vars.Keys, {i, j});
    ReplaceChanges(Render(Fill(parts, vars, {i, j})), at, Placeholder(key), vars[key]);
    if i == j {
      assert {i, j} == {i} && HolesIn(parts, {i, key});
      order := TwoComeLast(parts, vars, i, key);
    } else {
      order := TwoThenKey(parts, vars, i, j, key);
    }
  }

  lemma TwoThenKey(parts: seq<Part>, vars: map<string, string>, i: string, j: string, key: string)
    returns (order: seq<string>)
    requires BraceFreeNames(vars) && WellFormed(parts) && HolesIn(parts, {i, j})
    requires i in vars && j in vars && key in vars && i != j && i != key && j != key
    requires ReplaceAll(Render(Fill(parts, vars, {i, j})), Placeholder(key), vars[key])
      != Render(Fill(parts, vars, {i, j}))
    ensures WalkOf(vars.Keys, order) && ReplaceInOrder(Render(parts), vars, order) != Render(Fill(parts, vars, {i, j}))
  {
    if ReplaceAll(Render(Fill(parts, vars, {i})), Placeholder(j), vars[j]) == Render(Fill(parts, vars, {i, j})) {
      order := KeyComesLast(parts, vars, i, j, key);
    } else {
      order := TwoComeLast(parts, vars, i, j);
    }
  }

  lemma KeyComesLast(parts: seq<Part>, vars: map<string, string>, i: string, j: string, key: string)
    returns (order: seq<string>)
    requires BraceFreeNames(vars) && WellFormed(parts) && HolesIn(parts, {i, j})
    requires i in vars && j in vars && key in vars && i != j && i != key && j != key
    requires ReplaceAll(Render(Fill(parts, vars, {i})), Placeholder(j), vars[j]) == Render(Fill(parts, vars, {i, j}))
    ensures WalkOf(vars.Keys, order)
    ensures ReplaceInOrder(Render(parts), vars, order)
      == ReplaceAll(Render(Fill(parts, vars, {i, j})), Placeholder(key), vars[key])
  {
    var others := WalkInto(vars.Keys, i, j, key);
    FilledInOrder(parts, vars, others, i, j);
    order := others + [i] + [j] + [key];
    InOrderSnoc(Render(parts), vars, others + [i] + [j], key);
  }

  /** A walk that ends in three given names. */
  lemma WalkInto(all: set<string>, i: string, j: string, key: string) returns (others: seq<string>)
    requires i in all && j in all && key in all && i != j && i != key && j != key
    ensures WalkOf(all, others + [i] + [j] + [key])
    ensures forall k :: k in others ==> k in all && k != i && k != j
  {
    var names := all - {i, j, key};
    others := WalkExists(names);
    WalkSnoc(names, others, i);
    WalkSnoc(names + {i}, others + [i], j);
    WalkSnoc(names + {i} + {j}, others + [i] + [j], key);
    assert names + {i} + {j} + {key} == all;
  }

  lemma TwoComeLast(parts: seq<Part>, vars: map<string, string>, i: string, j: string) returns (order: seq<string>)
    requires BraceFreeNames(vars) && WellFormed(parts) && HolesIn(parts, {i, j}) && i in vars && j in vars && i != j
    ensures WalkOf(vars.Keys, order)
    ensures ReplaceInOrder(Render(parts), vars, order)
      == ReplaceAll(Render(Fill(parts, vars, {i})), Placeholder(j), vars[j])
  {
    var names := vars.Keys - {i, j};
    var others := WalkExists(names);
    FilledInOrder(parts, vars, others, i, j);
    WalkSnoc(names, others, i);
    WalkSnoc(names + {i}, others + [i], j);
    assert names + {i} + {j} == vars.Keys;
    order := others + [i] + [j];
  }

  /**
   * The exact condition for the executor: with brace-free names, every template gives the simultaneous
   * substitution in every order of the map, if and only if every name is harmless.
   */
  lemma ExactInAllOrdersIff(vars: map<string, string>)
    requires BraceFreeNames(vars)
    ensures ExactInAllOrders(vars) <==> Clean(vars)
  {
    if Clean(vars) {
      forall parts, order: seq<string> | WellFormed(parts) && WalkOf(vars.Keys, order)
        ensures ReplaceInOrder(Render(parts), vars, order) == Substitute(parts, vars)
      {
        CleanIsExact(parts, vars, order);
      }
    } else {
      var key :| key in vars && !Harmless(vars, key);
      var parts, order := HarmfulOrder(vars, key);
    }
  }

  /** Values without an opening brace, whatever closing ones they hold, are clean. */
  lemma NoOpeningBraceIsClean(vars: map<string, string>)
    requires BraceFreeNames(vars) && forall k :: k in vars ==> '{' !in vars[k]
    ensures Clean(vars)
  {
    forall k | k in vars ensures !CanForm(vars, vars.Keys - {k}, k) {
      forall j, m: nat | j in vars ensures !Opens(vars[j], k, m) && !Holds(vars[j], k) {
        NoBraceNoOpening(vars[j], k, m);
      }
    }
  }

  lemma NoBraceNoOpening(value: string, key: string, m: nat)
    requires '{' !in value
    ensures !Opens(value, key, m) && !Holds(value, key)
  {
    if m + 1 <= |value| {
      var at := |value| - m - 1;
      assert value[at..][0] == value[at] && value[at] in value;
    }
    forall i: nat | i < |value| ensures !MatchesAt(value, i, Placeholder(key)) {
      assert value[i..][0] == value[i] && value[i] in value;
    }
  }

  method Execute(template: string, vars: map<string, string>) returns (command: string)
    ensures exists order: seq<string> :: WalkOf(vars.Keys, order) && command == ReplaceInOrder(template, vars, order)
    ensures forall parts :: Clean(vars) && WellFormed(parts) && Render(parts) == template ==>
      command == Substitute(parts, vars)
  {
    command := template;
    var todo := vars.Keys;
    ghost var order: seq<string> := [];
    while todo != {}
      invariant todo <= vars.Keys && WalkOf(vars.Keys - todo, order)
      invariant command == ReplaceInOrder(template, vars, order)
      decreases |todo|
    {
      var key :| key in todo;
      command := ReplaceAll(command, "{" + key + "}", vars[key]);
      InOrderSnoc(template, vars, order, key);
      WalkSnoc(vars.Keys - todo, order, key);
      assert vars.Keys - todo + {key} == vars.Keys - (todo - {key});
      order, todo := order + [key], todo - {key};
    }
    assert vars.Keys - todo == vars.Keys;
    forall parts | Clean(vars) && WellFormed(parts) && Render(parts) == template
      ensures command == Substitute(parts, vars)
    {
      CleanIsExact(parts, vars, order);
    }
  }

  /** The restriction matters: a value holding a placeholder makes the command depend on the iteration order. */
  lemma OrderMattersForBracedValues()
    ensures
      var ab := ReplaceAll(ReplaceAll("{a}", "{a}", "{b}"), "{b}", "x");
      var ba := ReplaceAll(ReplaceAll("{a}", "{b}", "x"), "{a}", "{b}");
      ab == "x" && ba == "{b}"
  {
    assert "{a}"[..3] == "{a}" && "{b}"[..3] == "{b}";
    assert "{a}"[3..] == "" && "{b}"[3..] == "";
    assert ReplaceAll("", "{a}", "{b}") == "" && ReplaceAll("", "{b}", "x") == "";
    assert ReplaceAll("{a}", "{a}", "{b}") == "{b}";
    assert ReplaceAll("{b}", "{b}", "x") == "x";
    assert "{a}"[1..] == "a}" && ReplaceAll("a}", "{b}", "x") == "a}";
    assert "{a}"[..3] != "{b}" by { assert "{a}"[1] != "{b}"[1]; }
    assert ReplaceAll("{a}", "{b}", "x") == "{a}";
  }
}
