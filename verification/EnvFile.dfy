/**
 * Upserting settings into an env file, line by line: the first line of each
 * key is replaced, keys without a line are appended, and trailing blank lines
 * are dropped.
 */
module EnvFile {
  import opened Options
  import opened Text

  // ---- lines ----

  function FirstNewline(s: string): (n: nat)
    ensures n <= |s| && (n < |s| ==> s[n] == '\n') && forall i :: 0 <= i < n ==> s[i] != '\n'
  {
    if s == [] || s[0] == '\n' then 0 else 1 + FirstNewline(s[1..])
  }

  predicate EndsInReturn(line: string)
  {
    line != [] && line[|line| - 1] == '\r'
  }

  function StripReturn(line: string): string
  {
    if EndsInReturn(line) then line[..|line| - 1] else line
  }

  /** Lines end at a newline with at most one carriage return before it. */
  function Split(s: string): (lines: seq<string>)
    ensures lines != [] && forall l :: l in lines ==> '\n' !in l
    decreases |s|
  {
    var n := FirstNewline(s);
    if n == |s| then [s] else [StripReturn(s[..n])] + Split(s[n + 1..])
  }

  function Join(lines: seq<string>): string
  {
    if lines == [] then [] else if |lines| == 1 then lines[0] else lines[0] + "\n" + Join(lines[1..])
  }

  predicate Blank(line: string)
  {
    Trim(line) == []
  }

  // ---- assignments ----

  predicate IsIdentifierStart(c: char)
  {
    'A' <= c <= 'Z' || 'a' <= c <= 'z' || c == '_'
  }

  predicate IsIdentifierPart(c: char)
  {
    IsIdentifierStart(c) || '0' <= c <= '9'
  }

  function IdentifierEnd(s: string): (n: nat)
    ensures n <= |s| && (n < |s| ==> !IsIdentifierPart(s[n])) && forall i :: 0 <= i < n ==> IsIdentifierPart(s[i])
  {
    if s == [] || !IsIdentifierPart(s[0]) then 0 else 1 + IdentifierEnd(s[1..])
  }

  predicate NoBreaks(s: string)
  {
    forall c :: c in s ==> !IsBreak(c)
  }

  /** The name a line assigns to: nothing but white space may stand around name, equals sign and a one-line value. */
  function MatchKey(line: string): Option<string>
  {
    var t := TrimLeft(line);
    var n := IdentifierEnd(t);
    var rest := TrimLeft(t[n..]);
    if n > 0 && IsIdentifierStart(t[0]) && rest != [] && rest[0] == '=' && NoBreaks(Trim(rest[1..]))
    then Some(t[..n]) else None
  }

  function FirstBreak(s: string): (n: nat)
    ensures n <= |s| && NoBreaks(s[..n]) && (n < |s| ==> IsBreak(s[n]))
  {
    if s == [] || IsBreak(s[0]) then 0 else 1 + FirstBreak(s[1..])
  }

  /** The value such a line is read as. */
  function MatchValue(line: string): string
    requires MatchKey(line).Some?
  {
    var t := TrimLeft(line);
    var rest := TrimLeft(t[IdentifierEnd(t)..]);
    var body := TrimLeft(rest[1..]);
    body[..FirstBreak(body)]
  }

  // ---- the settings ----

  datatype Settings = Settings(names: seq<string>, values: map<string, string>)

  ghost predicate Distinct(names: seq<string>)
  {
    forall i, j :: 0 <= i < j < |names| ==> names[i] != names[j]
  }

  /** An object has each of its keys once. */
  ghost predicate WellFormed(kv: Settings)
  {
    Distinct(kv.names) && forall i :: 0 <= i < |kv.names| ==> kv.names[i] in kv.values
  }

  function Value(kv: Settings, k: string): string
  {
    if k in kv.values then kv.values[k] else ""
  }

  /** Settings without a value are left alone. */
  predicate Wanted(kv: Settings, k: string)
  {
    k in kv.names && Value(kv, k) != ""
  }

  function Assignment(kv: Settings, k: string): string
  {
    k + "=" + Value(kv, k)
  }

  function Without(names: seq<string>, k: string): seq<string>
  {
    if names == [] then []
    else Without(names[..|names| - 1], k) + if names[|names| - 1] == k then [] else [names[|names| - 1]]
  }

  // ---- what the upsert should do ----

  ghost predicate Names(lines: seq<string>, k: string)
  {
    exists i :: 0 <= i < |lines| && MatchKey(lines[i]) == Some(k)
  }

  ghost predicate IsFirst(lines: seq<string>, i: nat)
    requires i < |lines|
  {
    MatchKey(lines[i]).Some? && !Names(lines[..i], MatchKey(lines[i]).value)
  }

  /** A line is replaced when it is the first of a wanted key. */
  ghost predicate Replaced(lines: seq<string>, kv: Settings, i: nat)
    requires i < |lines|
  {
    IsFirst(lines, i) && Wanted(kv, MatchKey(lines[i]).value)
  }

  ghost function NewLine(lines: seq<string>, kv: Settings, i: nat): string
    requires i < |lines|
  {
    if Replaced(lines, kv, i) then Assignment(kv, MatchKey(lines[i]).value) else lines[i]
  }

  /** Of some names, in order, those wanted that no line assigns to. */
  ghost function Missing(lines: seq<string>, kv: Settings, names: seq<string>): seq<string>
  {
    if names == [] then []
    else
      var k := names[|names| - 1];
      Missing(lines, kv, names[..|names| - 1]) + if Wanted(kv, k) && !Names(lines, k) then [k] else []
  }

  function Assignments(kv: Settings, names: seq<string>): seq<string>
  {
    seq(|names|, i requires 0 <= i < |names| => Assignment(kv, names[i]))
  }

  ghost function Upserted(lines: seq<string>, kv: Settings): seq<string>
  {
    seq(|lines|, i requires 0 <= i < |lines| => NewLine(lines, kv, i)) + Assignments(kv, Missing(lines, kv, kv.names))
  }

  function PopBlank(lines: seq<string>): seq<string>
  {
    if lines == [] || !Blank(lines[|lines| - 1]) then lines else PopBlank(lines[..|lines| - 1])
  }

  ghost function Upsert(existing: string, kv: Settings): string
  {
    Join(PopBlank(Upserted(Split(existing), kv))) + "\n"
  }

  // ---- the script ----

  lemma WithoutAppend(names: seq<string>, last: string, k: string)
    ensures Without(names + [last], k) == Without(names, k) + if last == k then [] else [last]
  {
    assert (names + [last])[..|names|] == names;
  }

  lemma {:induction false} MissingHas(lines: seq<string>, kv: Settings, names: seq<string>, k: string)
    ensures k in Missing(lines, kv, names) <==> k in names && Wanted(kv, k) && !Names(lines, k)
  {
    hide Wanted, Names;
    if names != [] {
      MissingHas(lines, kv, names[..|names| - 1], k);
      assert k in names <==> k in names[..|names| - 1] || k == names[|names| - 1];
    }
  }

  lemma NamesAppend(lines: seq<string>, line: string, k: string)
    ensures Names(lines + [line], k) <==> Names(lines, k) || MatchKey(line) == Some(k)
  {
    hide MatchKey;
    if Names(lines, k) {
      var i :| 0 <= i < |lines| && MatchKey(lines[i]) == Some(k);
      assert MatchKey((lines + [line])[i]) == Some(k);
    }
    assert (lines + [line])[|lines|] == line;
  }

  /** Once a line has assigned to a key, the key is no longer missing. */
  lemma {:induction false} MissingStep(lines: seq<string>, line: string, kv: Settings, names: seq<string>)
    ensures var before := Missing(lines, kv, names);
            Missing(lines + [line], kv, names)
            == if MatchKey(line).Some? then Without(before, MatchKey(line).value) else before
  {
    hide MatchKey, Wanted, Names;
    if names != [] {
      var init, k := names[..|names| - 1], names[|names| - 1];
      MissingStep(lines, line, kv, init);
      NamesAppend(lines, line, k);
      var before := Missing(lines, kv, init);
      assert before + [] == before;
      if MatchKey(line).Some? {
        WithoutAppend(before, k, MatchKey(line).value);
        assert Without(before, MatchKey(line).value) + [] == Without(before, MatchKey(line).value);
      }
    }
  }

  lemma {:induction false} WithoutAbsent(names: seq<string>, k: string)
    requires k !in names
    ensures Without(names, k) == names
  {
    if names != [] {
      WithoutAbsent(names[..|names| - 1], k);
      assert names == names[..|names| - 1] + [names[|names| - 1]] && names[|names| - 1] in names;
    }
  }

  method WantedNames(kv: Settings) returns (byKey: seq<string>)
    ensures byKey == Missing([], kv, kv.names)
  {
    byKey := [];
    for n := 0 to |kv.names|
      invariant byKey == Missing([], kv, kv.names[..n])
    {
      assert kv.names[..n + 1][..n] == kv.names[..n];
      if Value(kv, kv.names[n]) != "" {
        byKey := byKey + [kv.names[n]];
      }
    }
    assert kv.names[..|kv.names|] == kv.names;
  }

  /** Replaces lines and forgets each name at its first line; what is left has no line. */
  method ReplaceLines(lines: seq<string>, kv: Settings, wanted: seq<string>)
    returns (out: seq<string>, byKey: seq<string>)
    requires wanted == Missing([], kv, kv.names)
    ensures |out| == |lines| && forall i :: 0 <= i < |lines| ==> out[i] == NewLine(lines, kv, i)
    ensures byKey == Missing(lines, kv, kv.names)
  {
    hide MatchKey, Wanted, Names, Missing, Without, Assignment, Value;
    out, byKey := [], wanted;
    for i := 0 to |lines|
      invariant |out| == i && forall j :: 0 <= j < i ==> out[j] == NewLine(lines, kv, j)
      invariant byKey == Missing(lines[..i], kv, kv.names)
    {
      var key := MatchKey(lines[i]);
      assert lines[..i + 1] == lines[..i] + [lines[i]];
      MissingStep(lines[..i], lines[i], kv, kv.names);
      var line := lines[i];
      if key.Some? {
        MissingHas(lines[..i], kv, kv.names, key.value);
        WantedIsNamed(kv, key.value);
        if key.value in byKey {
          byKey := Without(byKey, key.value);
          line := Assignment(kv, key.value);
        } else {
          WithoutAbsent(byKey, key.value);
        }
      }
      out := out + [line];
    }
    assert lines[..|lines|] == lines;
  }

  lemma WantedIsNamed(kv: Settings, k: string)
    ensures Wanted(kv, k) ==> k in kv.names
  {
  }

  /** byKey holds the names still to be written, in the order in which they were set. */
  method UpsertEnvFile(existing: string, kv: Settings) returns (text: string)
    ensures text == Upsert(existing, kv)
  {
    hide Split, Join, Blank, Missing, NewLine;
    var lines := Split(existing);
    var byKey := WantedNames(kv);
    var out: seq<string>;
    out, byKey := ReplaceLines(lines, kv, byKey);
    ghost var replaced := out;
    for n := 0 to |byKey|
      invariant out == replaced + Assignments(kv, byKey[..n])
    {
      out := out + [Assignment(kv, byKey[n])];
    }
    assert byKey[..|byKey|] == byKey;
    assert out == Upserted(lines, kv);
    ghost var all := out;
    while out != [] && Blank(out[|out| - 1])
      invariant PopBlank(out) == PopBlank(all)
    {
      out := out[..|out| - 1];
    }
    text := Join(out) + "\n";
  }
}
