/** Laws of the env file: what is kept, what reads back, and exactly when a second upsert changes nothing. */
module EnvFileLaws {
  import opened Options
  import opened Text
  import opened EnvFile

  // ---- trimming ----

  lemma {:induction false} TrimLeftOver(s: string, t: string)
    ensures TrimLeft(s + t) == if TrimLeft(s) == [] then TrimLeft(t) else TrimLeft(s) + t
  {
    if s == [] {
      assert s + t == t;
    } else {
      assert (s + t)[1..] == s[1..] + t;
      TrimLeftOver(s[1..], t);
    }
  }

  lemma {:induction false} TrimRightOver(s: string, t: string)
    ensures TrimRight(s + t) == if TrimRight(t) == [] then TrimRight(s) else s + TrimRight(t)
  {
    if t == [] {
      assert s + t == s;
    } else {
      assert (s + t)[..|s + t| - 1] == s + t[..|t| - 1];
      TrimRightOver(s, t[..|t| - 1]);
    }
  }

  /** A carriage return at the end is white space like any other. */
  lemma TrimIgnoresReturn(s: string)
    ensures Trim(s + "\r") == Trim(s)
  {
    TrimLeftOver(s, "\r");
    assert TrimLeft("\r") == [] by {
      assert "\r"[1..] == "";
    }
    TrimRightOver(TrimLeft(s), "\r");
    assert TrimRight("\r") == [] by {
      assert "\r"[..0] == "";
    }
  }

  lemma {:induction false} TrimPart(s: string)
    ensures forall c :: c in Trim(s) ==> c in s
  {
    assert TrimRight(TrimLeft(s)) <= TrimLeft(s);
  }

  // ---- keys ----

  predicate IsLetter(c: char)
  {
    'a' <= c <= 'z' || 'A' <= c <= 'Z'
  }

  /** Letters, digits and underscores, and no digit first. */
  predicate IsIdentifier(k: string)
  {
    && k != [] && (IsLetter(k[0]) || k[0] == '_')
    && forall c :: c in k ==> IsLetter(c) || c == '_' || '0' <= c <= '9'
  }

  lemma IdentifierParts(k: string)
    requires IsIdentifier(k)
    ensures IsIdentifierStart(k[0]) && forall c :: c in k ==> IsIdentifierPart(c)
  {
  }

  /** A line that assigns to a key has it as an identifier at its start, before the equals sign. */
  lemma KeysAreIdentifiers(line: string)
    requires MatchKey(line).Some?
    ensures IsIdentifier(MatchKey(line).value) && MatchKey(line).value <= TrimLeft(line)
    ensures var rest := TrimLeft(TrimLeft(line)[|MatchKey(line).value|..]);
            rest != [] && rest[0] == '=' && NoBreaks(Trim(rest[1..]))
  {
    hide TrimLeft, Trim, NoBreaks;
  }

  lemma {:induction false} IdentifierThen(k: string, rest: string)
    requires (forall c :: c in k ==> IsIdentifierPart(c)) && (rest == [] || !IsIdentifierPart(rest[0]))
    ensures IdentifierEnd(k + rest) == |k|
  {
    if k == [] {
      assert k + rest == rest;
    } else {
      assert (k + rest)[1..] == k[1..] + rest;
      IdentifierThen(k[1..], rest);
    }
  }

  lemma StartsUnspaced(s: string)
    requires s == [] || !IsSpace(s[0])
    ensures TrimLeft(s) == s
  {
  }

  lemma {:induction false} NoBreakFound(s: string)
    requires NoBreaks(s)
    ensures FirstBreak(s) == |s|
  {
    if s != [] {
      NoBreakFound(s[1..]);
    }
  }

  lemma IdentifierIsUnspaced(c: char)
    requires IsIdentifierPart(c)
    ensures !IsSpace(c)
  {
  }

  lemma MatchParts(line: string, k: string, rest: string)
    requires TrimLeft(line) == line && IdentifierEnd(line) == |k| && k == line[..|k|] && IsIdentifier(k)
    requires TrimLeft(line[|k|..]) == rest && rest != [] && rest[0] == '=' && NoBreaks(Trim(rest[1..]))
    ensures MatchKey(line) == Some(k)
    ensures MatchValue(line) == var body := TrimLeft(rest[1..]); body[..FirstBreak(body)]
  {
    hide TrimLeft, Trim, IdentifierEnd, FirstBreak, NoBreaks;
  }

  lemma TrimmedNoBreaks(v: string)
    requires NoBreaks(v)
    ensures NoBreaks(Trim(v)) && NoBreaks(TrimLeft(v))
  {
    TrimPart(v);
    assert forall c :: c in TrimLeft(v) ==> c in v;
  }

  /** A written line assigns to its key, and reads as its value up to leading white space. */
  lemma AssignmentMatches(k: string, v: string)
    requires IsIdentifier(k) && NoBreaks(v)
    ensures MatchKey(k + "=" + v) == Some(k) && MatchValue(k + "=" + v) == TrimLeft(v)
  {
    IdentifierParts(k);
    hide TrimLeft, TrimRight, Trim, IdentifierEnd, FirstBreak, NoBreaks, IsIdentifierPart, IsSpace, MatchKey,
         MatchValue;
    var line, rest := k + "=" + v, "=" + v;
    assert line == k + rest && line[..|k|] == k && line[|k|..] == rest && rest[1..] == v && line[0] == k[0];
    assert k[0] in k;
    IdentifierIsUnspaced(k[0]);
    StartsUnspaced(line);
    EqualsSign(v);
    IdentifierThen(k, rest);
    StartsUnspaced(rest);
    TrimmedNoBreaks(v);
    NoBreakFound(TrimLeft(v));
    assert TrimLeft(v)[..|TrimLeft(v)|] == TrimLeft(v);
    MatchParts(line, k, rest);
  }

  lemma EqualsSign(v: string)
    ensures !IsIdentifierPart(("=" + v)[0]) && !IsSpace(("=" + v)[0])
  {
  }

  lemma {:induction false} IdentifierEndOver(s: string, t: string)
    requires t == [] || !IsIdentifierPart(t[0])
    ensures IdentifierEnd(s + t) == IdentifierEnd(s)
  {
    if s == [] {
      assert s + t == t;
    } else {
      assert (s + t)[1..] == s[1..] + t;
      IdentifierEndOver(s[1..], t);
    }
  }

  lemma ReturnTrimmed(s: string)
    ensures TrimLeft(s + "\r") == if TrimLeft(s) == [] then [] else TrimLeft(s) + "\r"
  {
    TrimLeftOver(s, "\r");
    assert "\r"[1..] == "";
  }

  lemma RestWithReturn(t: string)
    ensures var n := IdentifierEnd(t);
            && IdentifierEnd(t + "\r") == n && (t + "\r")[..n] == t[..n]
            && TrimLeft((t + "\r")[n..]) == if TrimLeft(t[n..]) == [] then [] else TrimLeft(t[n..]) + "\r"
  {
    hide TrimLeft, IdentifierEnd;
    var n := IdentifierEnd(t);
    IdentifierEndOver(t, "\r");
    assert (t + "\r")[n..] == t[n..] + "\r";
    ReturnTrimmed(t[n..]);
  }

  lemma BodyWithReturn(rest: string)
    requires rest != []
    ensures Trim((rest + "\r")[1..]) == Trim(rest[1..])
  {
    hide Trim;
    assert (rest + "\r")[1..] == rest[1..] + "\r";
    TrimIgnoresReturn(rest[1..]);
  }

  /** A carriage return at the end of a line changes neither its key nor whether it is blank. */
  lemma MatchIgnoresReturn(line: string)
    ensures MatchKey(line + "\r") == MatchKey(line) && Blank(line + "\r") == Blank(line)
  {
    TrimIgnoresReturn(line);
    KeyIgnoresReturn(line);
  }

  /** What follows the name says that the line assigns. */
  predicate Assigns(rest: string)
  {
    rest != [] && rest[0] == '=' && NoBreaks(Trim(rest[1..]))
  }

  lemma AssignsIgnoresReturn(rest: string)
    requires rest != []
    ensures Assigns(rest + "\r") == Assigns(rest)
  {
    hide Trim, NoBreaks;
    assert (rest + "\r")[0] == rest[0];
    BodyWithReturn(rest);
  }

  lemma KeyParts(line: string, t: string, n: nat, rest: string)
    requires t == TrimLeft(line) && n == IdentifierEnd(t) && rest == TrimLeft(t[n..])
    ensures MatchKey(line) == if n > 0 && IsIdentifierStart(t[0]) && Assigns(rest) then Some(t[..n]) else None
  {
    hide Trim, TrimLeft, NoBreaks, IdentifierEnd, IsIdentifierStart;
  }

  lemma KeyIgnoresReturn(line: string)
    ensures MatchKey(line + "\r") == MatchKey(line)
  {
    hide TrimLeft, IdentifierEnd, IsIdentifierStart, Assigns, MatchKey;
    var t := TrimLeft(line);
    var n := IdentifierEnd(t);
    var rest := TrimLeft(t[n..]);
    ReturnTrimmed(line);
    KeyParts(line, t, n, rest);
    if t == [] {
      KeyParts(line + "\r", t, n, rest);
    } else {
      RestWithReturn(t);
      KeyParts(line + "\r", t + "\r", n, TrimLeft((t + "\r")[n..]));
      if rest != [] {
        AssignsIgnoresReturn(rest);
      }
      assert n > 0 ==> (t + "\r")[0] == t[0];
    }
  }

  // ---- text and lines ----

  function Unlines(lines: seq<string>): string
  {
    if lines == [] then "" else lines[0] + "\n" + Unlines(lines[1..])
  }

  function Stripped(lines: seq<string>): (r: seq<string>)
    ensures |r| == |lines|
  {
    seq(|lines|, i requires 0 <= i < |lines| => StripReturn(lines[i]))
  }

  lemma {:induction false} JoinIsUnlines(lines: seq<string>)
    requires lines != []
    ensures Join(lines) + "\n" == Unlines(lines)
  {
    if |lines| == 1 {
      assert Unlines(lines[1..]) == "";
      assert Join(lines) + "\n" == lines[0] + "\n" + Unlines(lines[1..]);
    } else {
      JoinIsUnlines(lines[1..]);
      assert Join(lines) + "\n" == lines[0] + "\n" + (Join(lines[1..]) + "\n");
    }
  }

  lemma {:induction false} NewlineAfter(line: string, rest: string)
    requires '\n' !in line
    ensures FirstNewline(line + "\n" + rest) == |line|
  {
    var s := line + "\n" + rest;
    assert s[|line|] == '\n';
    assert forall i :: 0 <= i < |line| ==> s[i] == line[i] && line[i] in line;
  }

  lemma SplitStep(line: string, rest: string)
    requires '\n' !in line
    ensures Split(line + "\n" + rest) == [StripReturn(line)] + Split(rest)
  {
    hide FirstNewline, StripReturn;
    var s := line + "\n" + rest;
    NewlineAfter(line, rest);
    assert s[..|line|] == line && s[|line| + 1..] == rest;
  }

  /** Printing lines and splitting them again loses one carriage return at the end of each, and adds an empty line. */
  lemma {:induction false} SplitUnlines(lines: seq<string>)
    requires forall l :: l in lines ==> '\n' !in l
    ensures Split(Unlines(lines)) == Stripped(lines) + [""]
  {
    hide Split, StripReturn;
    if lines == [] {
      assert Split("") == [""] by {
        SplitNothing();
      }
    } else {
      assert lines[0] in lines;
      SplitStep(lines[0], Unlines(lines[1..]));
      SplitUnlines(lines[1..]);
      assert Stripped(lines) + [""] == [StripReturn(lines[0])] + (Stripped(lines[1..]) + [""]);
    }
  }

  lemma SplitNothing()
    ensures Split("") == [""]
  {
  }

  lemma {:induction false} StrippedLength(lines: seq<string>)
    ensures |Unlines(Stripped(lines))| <= |Unlines(lines)|
    ensures |Unlines(Stripped(lines))| == |Unlines(lines)| <==> forall l :: l in lines ==> !EndsInReturn(l)
  {
    if lines != [] {
      StrippedLength(lines[1..]);
      assert Stripped(lines)[1..] == Stripped(lines[1..]);
      assert forall l :: l in lines <==> l == lines[0] || l in lines[1..];
    }
  }

  lemma {:induction false} PopBlankShape(lines: seq<string>)
    ensures PopBlank(lines) <= lines
    ensures PopBlank(lines) == [] || !Blank(PopBlank(lines)[|PopBlank(lines)| - 1])
    ensures forall i :: |PopBlank(lines)| <= i < |lines| ==> Blank(lines[i])
  {
    hide Blank;
    if lines != [] && Blank(lines[|lines| - 1]) {
      PopBlankShape(lines[..|lines| - 1]);
    }
  }

  // ---- what is written ----

  /** The settings the script is called with: identifiers as names, values of one line. */
  ghost predicate Writable(kv: Settings)
  {
    WellFormed(kv) && forall k :: Wanted(kv, k) ==> IsIdentifier(k) && NoBreaks(Value(kv, k))
  }

  ghost function Written(lines: seq<string>, kv: Settings): seq<string>
  {
    PopBlank(Upserted(lines, kv))
  }

  lemma {:induction false} TrimRightKeeps(s: string)
    requires s != [] && !IsSpace(s[0])
    ensures TrimRight(s) != []
  {
    if |s| > 1 {
      TrimRightKeeps(s[..|s| - 1]);
    }
  }

  lemma KeyedIsNotBlank(line: string)
    requires MatchKey(line).Some?
    ensures !Blank(line)
  {
    hide TrimLeft, TrimRight, IdentifierEnd, NoBreaks, IsSpace;
    TrimRightKeeps(TrimLeft(line));
  }

  lemma AssignmentLine(kv: Settings, k: string)
    requires Writable(kv) && Wanted(kv, k)
    ensures MatchKey(Assignment(kv, k)) == Some(k) && !Blank(Assignment(kv, k)) && !EndsInReturn(Assignment(kv, k))
    ensures '\n' !in Assignment(kv, k)
  {
    hide MatchKey, MatchValue, Blank;
    var v := Value(kv, k);
    AssignmentMatches(k, v);
    KeyedIsNotBlank(Assignment(kv, k));
    assert v[|v| - 1] in v;
    assert forall c :: c in Assignment(kv, k) ==> c in k || c == '=' || c in v;
  }

  ghost function Appended(lines: seq<string>, kv: Settings): seq<string>
  {
    Missing(lines, kv, kv.names)
  }

  /** The lines as replaced keep their keys, and stay blank or not; then come the appended ones. */
  lemma UpsertedAt(lines: seq<string>, kv: Settings, i: nat)
    requires Writable(kv) && i < |Upserted(lines, kv)|
    ensures var l := Upserted(lines, kv)[i];
            if i < |lines| then
              && l == NewLine(lines, kv, i) && MatchKey(l) == MatchKey(lines[i]) && Blank(l) == Blank(lines[i])
              && (EndsInReturn(l) ==> l == lines[i] && !Replaced(lines, kv, i))
              && ('\n' !in lines[i] ==> '\n' !in l)
            else
              var k := Appended(lines, kv)[i - |lines|];
              && Wanted(kv, k) && !Names(lines, k) && l == Assignment(kv, k) && MatchKey(l) == Some(k)
              && !Blank(l) && !EndsInReturn(l) && '\n' !in l
  {
    hide MatchKey, Blank, Missing, Wanted, Names, Assignment, EndsInReturn, Writable;
    if i < |lines| {
      if Replaced(lines, kv, i) {
        AssignmentLine(kv, MatchKey(lines[i]).value);
        KeyedIsNotBlank(lines[i]);
      }
    } else {
      var k := Appended(lines, kv)[i - |lines|];
      assert k in Appended(lines, kv);
      MissingHas(lines, kv, kv.names, k);
      AssignmentLine(kv, k);
    }
  }

  lemma {:induction false} MissingOnce(lines: seq<string>, kv: Settings, names: seq<string>)
    requires Distinct(names)
    ensures Distinct(Missing(lines, kv, names))
  {
    hide Wanted, Names;
    if names != [] {
      var init, k := names[..|names| - 1], names[|names| - 1];
      MissingOnce(lines, kv, init);
      MissingHas(lines, kv, init, k);
    }
  }

  lemma {:induction false} FirstNamed(lines: seq<string>, k: string) returns (f: nat)
    requires Names(lines, k)
    ensures f < |lines| && MatchKey(lines[f]) == Some(k) && !Names(lines[..f], k)
  {
    hide MatchKey;
    var init := lines[..|lines| - 1];
    assert lines == init + [lines[|lines| - 1]];
    NamesAppend(init, lines[|lines| - 1], k);
    if Names(init, k) {
      f := FirstNamed(init, k);
      assert init[..f] == lines[..f];
    } else {
      f := |lines| - 1;
    }
  }

  /** In what is written, the first line of every wanted key is its assignment. */
  lemma FirstWritten(lines: seq<string>, kv: Settings, k: string) returns (f: nat)
    requires Writable(kv) && Wanted(kv, k)
    ensures var w := Written(lines, kv);
            f < |w| && w[f] == Assignment(kv, k) && MatchKey(w[f]) == Some(k) && !Names(w[..f], k)
  {
    hide MatchKey, Blank, Wanted, Writable, Assignment, Upserted, PopBlank, NewLine, Missing;
    var all := Upserted(lines, kv);
    PopBlankShape(all);
    UpsertedSize(lines, kv);
    if Names(lines, k) {
      f := FirstNamed(lines, k);
      UpsertedAt(lines, kv, f);
      assert NewLine(lines, kv, f) == Assignment(kv, k) by {
        ReplacedAt(lines, kv, f);
      }
      KeyedIsNotBlank(all[f]);
    } else {
      MissingHas(lines, kv, kv.names, k);
      assert k in kv.names by {
        WantedIsNamed(kv, k);
      }
      var j: nat :| j < |Appended(lines, kv)| && Appended(lines, kv)[j] == k;
      f := |lines| + j;
      UpsertedAt(lines, kv, f);
    }
    forall i | 0 <= i < f
      ensures MatchKey(all[i]) != Some(k)
    {
      UpsertedAt(lines, kv, i);
      if i >= |lines| {
        AppendedOnce(lines, kv, i - |lines|, f - |lines|);
      }
    }
  }

  lemma AppendedOnce(lines: seq<string>, kv: Settings, i: nat, j: nat)
    requires Writable(kv) && i < j < |Appended(lines, kv)|
    ensures Appended(lines, kv)[i] != Appended(lines, kv)[j]
  {
    assert WellFormed(kv);
    hide Missing, Wanted, Names, Writable, WellFormed;
    MissingOnce(lines, kv, kv.names);
  }

  lemma UpsertedSize(lines: seq<string>, kv: Settings)
    ensures |Upserted(lines, kv)| == |lines| + |Appended(lines, kv)|
  {
  }

  lemma ReplacedAt(lines: seq<string>, kv: Settings, i: nat)
    requires i < |lines| && MatchKey(lines[i]).Some? && Wanted(kv, MatchKey(lines[i]).value)
    requires !Names(lines[..i], MatchKey(lines[i]).value)
    ensures NewLine(lines, kv, i) == Assignment(kv, MatchKey(lines[i]).value)
  {
  }

  // ---- the laws ----

  lemma WrittenHasNoNewline(lines: seq<string>, kv: Settings)
    requires Writable(kv) && forall l :: l in lines ==> '\n' !in l
    ensures forall l :: l in Written(lines, kv) ==> '\n' !in l
  {
    hide Upserted, PopBlank, Writable;
    var all, w := Upserted(lines, kv), Written(lines, kv);
    PopBlankShape(all);
    forall i | 0 <= i < |w|
      ensures '\n' !in w[i]
    {
      UpsertedAt(lines, kv, i);
      UpsertedSize(lines, kv);
      if i < |lines| {
        assert lines[i] in lines;
      }
    }
  }

  /** The text that is written, as lines: what was computed, less one carriage return each, and an empty line. */
  lemma WrittenLines(existing: string, kv: Settings)
    requires Writable(kv)
    ensures var w := Written(Split(existing), kv);
            && Upsert(existing, kv) == (if w == [] then "\n" else Unlines(w))
            && (w != [] ==> Split(Upsert(existing, kv)) == Stripped(w) + [""])
  {
    hide Upserted, PopBlank, Writable, Split, Join, Unlines, Stripped;
    var w := Written(Split(existing), kv);
    WrittenHasNoNewline(Split(existing), kv);
    if w == [] {
      assert Join([]) == "" by {
        JoinNothing();
      }
    } else {
      JoinIsUnlines(w);
      SplitUnlines(w);
    }
  }

  lemma JoinNothing()
    ensures Join([]) == ""
  {
  }

  lemma StrippedKeys(lines: seq<string>, n: nat, k: string)
    requires n <= |lines|
    ensures Names((Stripped(lines) + [""])[..n], k) <==> Names(lines[..n], k)
  {
    hide MatchKey, Blank;
    forall i | 0 <= i < |lines|
      ensures MatchKey(Stripped(lines)[i]) == MatchKey(lines[i])
    {
      StripKeepsKey(lines[i]);
    }
    forall i | 0 <= i < n
      ensures (Stripped(lines) + [""])[..n][i] == Stripped(lines)[i] && lines[..n][i] == lines[i]
    {
    }
  }

  lemma StripKeepsKey(line: string)
    ensures MatchKey(StripReturn(line)) == MatchKey(line) && Blank(StripReturn(line)) == Blank(line)
  {
    hide MatchKey, Blank;
    if EndsInReturn(line) {
      assert line == StripReturn(line) + "\r";
      MatchIgnoresReturn(StripReturn(line));
    }
  }

  lemma SettingIsWanted(kv: Settings, k: string)
    requires k in kv.names && k in kv.values && kv.values[k] != ""
    ensures Wanted(kv, k) && Value(kv, k) == kv.values[k] && Assignment(kv, k) == k + "=" + kv.values[k]
  {
  }

  /** In the file that is written, the first line of every wanted key is its assignment, which reads as the value. */
  lemma EverySettingReadsBack(existing: string, kv: Settings, k: string) returns (f: nat)
    requires Writable(kv) && k in kv.names && k in kv.values && kv.values[k] != ""
    ensures var lines := Split(Upsert(existing, kv));
            && f < |lines| && lines[f] == k + "=" + kv.values[k]
            && MatchKey(lines[f]) == Some(k) && !Names(lines[..f], k)
            && MatchValue(lines[f]) == TrimLeft(kv.values[k])
  {
    SettingIsWanted(kv, k);
    hide MatchKey, MatchValue, Blank, Split, Upsert, Written, Names, Wanted, Writable, Stripped, Assignment, Value,
         EndsInReturn, TrimLeft;
    var w := Written(Split(existing), kv);
    f := FirstWritten(Split(existing), kv, k);
    WrittenLines(existing, kv);
    AssignmentLine(kv, k);
    StrippedKeys(w, f, k);
    StrippedAt(w, f);
    ValueOf(kv, k);
  }

  lemma StrippedAt(lines: seq<string>, i: nat)
    requires i < |lines|
    ensures (Stripped(lines) + [""])[i] == StripReturn(lines[i])
    ensures !EndsInReturn(lines[i]) ==> (Stripped(lines) + [""])[i] == lines[i]
  {
  }

  lemma ValueOf(kv: Settings, k: string)
    requires Writable(kv) && Wanted(kv, k)
    ensures MatchKey(Assignment(kv, k)) == Some(k) && MatchValue(Assignment(kv, k)) == TrimLeft(Value(kv, k))
  {
    AssignmentMatches(k, Value(kv, k));
  }

  /** A line that assigns to nothing, to no setting that has a value, or to one that an earlier line assigns to. */
  ghost predicate NotFirstOfSetting(lines: seq<string>, kv: Settings, i: nat)
    requires i < |lines|
  {
    MatchKey(lines[i]).Some? ==>
      var k := MatchKey(lines[i]).value;
      || k !in kv.names || k !in kv.values || kv.values[k] == ""
      || exists j :: 0 <= j < i && MatchKey(lines[j]) == Some(k)
  }

  lemma NotFirstIsKept(lines: seq<string>, kv: Settings, i: nat)
    requires i < |lines| && NotFirstOfSetting(lines, kv, i)
    ensures !Replaced(lines, kv, i)
  {
    hide MatchKey;
    if MatchKey(lines[i]).Some? {
      var k := MatchKey(lines[i]).value;
      if j :| 0 <= j < i && MatchKey(lines[j]) == Some(k) {
        assert MatchKey(lines[..i][j]) == Some(k);
      }
    }
  }

  /** Every other line keeps its text, but for one carriage return, and its place, up to trailing blank lines. */
  lemma OtherLinesKept(existing: string, kv: Settings, i: nat)
    requires Writable(kv) && i < |Split(existing)| && NotFirstOfSetting(Split(existing), kv, i)
    ensures var was, now := Split(existing), Split(Upsert(existing, kv));
            (i < |now| - 1 && now[i] == StripReturn(was[i]))
            || (Blank(was[i]) && forall j :: i <= j < |was| ==> Blank(was[j]))
  {
    hide MatchKey, Blank, Split, Upsert, PopBlank, Upserted, Writable, StripReturn, Replaced, NewLine,
         NotFirstOfSetting;
    var was := Split(existing);
    NotFirstIsKept(was, kv, i);
    var w := Written(was, kv);
    WrittenLines(existing, kv);
    PopBlankShape(Upserted(was, kv));
    UpsertedSize(was, kv);
    if i < |w| {
      UpsertedAt(was, kv, i);
      assert NewLine(was, kv, i) == was[i] by {
        NotReplaced(was, kv, i);
      }
    } else {
      forall j | i <= j < |was|
        ensures Blank(was[j])
      {
        UpsertedAt(was, kv, j);
      }
    }
  }

  lemma NotReplaced(lines: seq<string>, kv: Settings, i: nat)
    requires i < |lines| && !Replaced(lines, kv, i)
    ensures NewLine(lines, kv, i) == lines[i]
  {
  }

  /** If the first line of every wanted key already is its assignment, nothing is replaced or appended. */
  lemma NothingToDo(lines: seq<string>, kv: Settings)
    requires forall k :: Wanted(kv, k) ==>
      exists f: nat ::
        f < |lines| && lines[f] == Assignment(kv, k) && MatchKey(lines[f]) == Some(k) && !Names(lines[..f], k)
    ensures Upserted(lines, kv) == lines
  {
    hide MatchKey, Wanted, Assignment, Missing, Names, WellFormed;
    forall i | 0 <= i < |lines|
      ensures NewLine(lines, kv, i) == lines[i]
    {
      if Replaced(lines, kv, i) {
        var k := MatchKey(lines[i]).value;
        var f: nat :| f < |lines| && lines[f] == Assignment(kv, k) && MatchKey(lines[f]) == Some(k)
                         && !Names(lines[..f], k);
        OneFirst(lines, k, i, f);
      }
    }
    assert Appended(lines, kv) == [] by {
      if Appended(lines, kv) != [] {
        var k := Appended(lines, kv)[0];
        MissingHas(lines, kv, kv.names, k);
        AssignedIsNamed(lines, k);
      }
    }
  }

  lemma OneFirst(lines: seq<string>, k: string, i: nat, f: nat)
    requires i < |lines| && MatchKey(lines[i]) == Some(k) && !Names(lines[..i], k)
    requires f < |lines| && MatchKey(lines[f]) == Some(k) && !Names(lines[..f], k)
    ensures i == f
  {
    hide MatchKey;
    assert forall j :: 0 <= j < i ==> lines[..i][j] == lines[j];
    assert forall j :: 0 <= j < f ==> lines[..f][j] == lines[j];
  }

  lemma AssignedIsNamed(lines: seq<string>, k: string)
    ensures (exists f: nat :: f < |lines| && MatchKey(lines[f]) == Some(k)) ==> Names(lines, k)
  {
  }

  /**
   * A line that is kept although it ends in a carriage return: it is not
   * replaced, and something that is not blank comes at or after it.
   */
  ghost predicate KeepsReturn(lines: seq<string>, kv: Settings)
  {
    exists i :: 0 <= i < |lines| && KeptWithReturn(lines, kv, i)
  }

  ghost predicate KeptWithReturn(lines: seq<string>, kv: Settings, i: nat)
    requires i < |lines|
  {
    && EndsInReturn(lines[i]) && !Replaced(lines, kv, i)
    && (Missing(lines, kv, kv.names) != [] || exists j :: i <= j < |lines| && !Blank(lines[j]))
  }

  lemma KeptReturnIsWritten(lines: seq<string>, kv: Settings)
    requires Writable(kv)
    ensures KeepsReturn(lines, kv) <==> exists l :: l in Written(lines, kv) && EndsInReturn(l)
  {
    hide MatchKey, Blank, Writable, Replaced, Upserted, PopBlank, EndsInReturn, NewLine;
    var all, w := Upserted(lines, kv), Written(lines, kv);
    PopBlankShape(all);
    UpsertedSize(lines, kv);
    if KeepsReturn(lines, kv) {
      var i: nat :| i < |lines| && KeptWithReturn(lines, kv, i);
      var j: nat := if Appended(lines, kv) != [] then |lines|
                    else var j: nat :| i <= j < |lines| && !Blank(lines[j]); j;
      UpsertedAt(lines, kv, i);
      UpsertedAt(lines, kv, j);
      NotReplaced(lines, kv, i);
      assert w[i] in w && w[i] == lines[i];
    }
    if l :| l in w && EndsInReturn(l) {
      var i: nat :| i < |w| && w[i] == l;
      UpsertedAt(lines, kv, i);
      UpsertedAt(lines, kv, |w| - 1);
      assert KeptWithReturn(lines, kv, i);
    }
  }

  /** A second pass over what was written leaves it as it is, less a carriage return at the end of each line. */
  lemma SecondPass(lines: seq<string>, kv: Settings)
    requires Writable(kv)
    ensures var w := Written(lines, kv); Written(Stripped(w) + [""], kv) == Stripped(w)
  {
    hide MatchKey, Blank, Writable, Upserted, PopBlank, Wanted, Assignment, Names, Stripped;
    var w := Written(lines, kv);
    var again := Stripped(w) + [""];
    forall k | Wanted(kv, k)
      ensures exists f: nat ::
                f < |again| && again[f] == Assignment(kv, k) && MatchKey(again[f]) == Some(k) && !Names(again[..f], k)
    {
      var f := FirstWritten(lines, kv, k);
      AssignmentLine(kv, k);
      StrippedKeys(w, f, k);
      StrippedAt(w, f);
      assert again[f] == Assignment(kv, k);
    }
    NothingToDo(again, kv);
    PopBlankShape(Upserted(lines, kv));
    if w != [] {
      StripKeepsKey(w[|w| - 1]);
      StrippedAt(w, |w| - 1);
    }
    BlankPopped(Stripped(w));
    NothingPopped(Stripped(w));
  }

  lemma NothingPopped(lines: seq<string>)
    requires lines == [] || !Blank(lines[|lines| - 1])
    ensures PopBlank(lines) == lines
  {
  }

  /** Upserting twice is upserting once exactly if no line is kept that ends in a carriage return. */
  lemma IdempotentIff(existing: string, kv: Settings)
    requires Writable(kv)
    ensures Upsert(Upsert(existing, kv), kv) == Upsert(existing, kv) <==> !KeepsReturn(Split(existing), kv)
  {
    hide Written, Upsert, Split, KeepsReturn, Writable, Unlines, Stripped, EndsInReturn;
    var w, once := Written(Split(existing), kv), Upsert(existing, kv);
    WrittenLines(existing, kv);
    WrittenLines(once, kv);
    KeptReturnIsWritten(Split(existing), kv);
    SecondPass(Split(existing), kv);
    if w == [] {
      SplitNewline();
      NothingWritten(Split(existing), kv);
    } else {
      StrippedLength(w);
      StrippedSame(w);
    }
  }

  lemma StrippedSame(lines: seq<string>)
    ensures |Stripped(lines)| == |lines|
    ensures (forall l :: l in lines ==> !EndsInReturn(l)) ==> Stripped(lines) == lines
  {
  }

  /** Nothing is written only for a blank file without settings; then nothing is written again. */
  lemma NothingWritten(lines: seq<string>, kv: Settings)
    requires Writable(kv) && Written(lines, kv) == []
    ensures Written(["", ""], kv) == []
  {
    hide MatchKey, Blank, Writable, Upserted, PopBlank, Wanted, Assignment, Names;
    forall k
      ensures !Wanted(kv, k)
    {
      if Wanted(kv, k) {
        var f := FirstWritten(lines, kv, k);
        assert false;
      }
    }
    NothingToDo(["", ""], kv);
    NothingPopped([]);
    BlankPopped([]);
    assert [] + [""] == [""] && [""] + [""] == ["", ""];
    BlankPopped([""]);
  }

  lemma BlankPopped(lines: seq<string>)
    ensures PopBlank(lines + [""]) == PopBlank(lines)
  {
    assert (lines + [""])[..|lines|] == lines;
    assert Blank("") by {
      assert Trim("") == "";
    }
  }

  lemma SplitNewline()
    ensures Split("\n") == ["", ""]
  {
    SplitStep("", "");
    SplitNothing();
    assert "" + "\n" + "" == "\n";
  }

  // ---- settings without a value ----

  lemma {:induction false} SameMissing(lines: seq<string>, kv: Settings, other: Settings, names: seq<string>, k: string)
    requires forall x :: x != k ==> (Wanted(kv, x) <==> Wanted(other, x))
    requires !Wanted(kv, k)
    ensures Missing(lines, kv, names) == Missing(lines, other, Without(names, k))
  {
    hide Wanted, Names;
    if names != [] {
      SameMissing(lines, kv, other, names[..|names| - 1], k);
      var rest := Without(names[..|names| - 1], k);
      if names[|names| - 1] != k {
        assert (rest + [names[|names| - 1]])[..|rest|] == rest;
      } else {
        assert rest + [] == rest;
      }
      assert Missing(lines, kv, names[..|names| - 1]) + [] == Missing(lines, kv, names[..|names| - 1]);
    }
  }

  lemma {:induction false} InWithout(names: seq<string>, k: string, x: string)
    ensures x in Without(names, k) <==> x in names && x != k
  {
    if names != [] {
      InWithout(names[..|names| - 1], k, x);
      assert names == names[..|names| - 1] + [names[|names| - 1]];
    }
  }

  /** A setting whose value is empty does nothing: the file is as it would be without the setting. */
  lemma EmptySettingIsIgnored(existing: string, kv: Settings, k: string)
    requires k in kv.values && kv.values[k] == ""
    ensures Upsert(existing, kv) == Upsert(existing, Settings(Without(kv.names, k), kv.values - {k}))
  {
    hide Split, Join, PopBlank, MatchKey, Names, Missing, Without;
    var other := Settings(Without(kv.names, k), kv.values - {k});
    var lines := Split(existing);
    forall x
      ensures x != k ==> (Wanted(kv, x) <==> Wanted(other, x))
      ensures x == k ==> !Wanted(kv, x) && !Wanted(other, x)
    {
      InWithout(kv.names, k, x);
    }
    SameMissing(lines, kv, other, kv.names, k);
    var missing := Missing(lines, kv, kv.names);
    forall x | x in missing
      ensures Assignment(kv, x) == Assignment(other, x)
    {
      MissingHas(lines, kv, kv.names, x);
    }
    assert Assignments(kv, missing) == Assignments(other, missing);
    forall i | 0 <= i < |lines|
      ensures NewLine(lines, kv, i) == NewLine(lines, other, i)
    {
    }
    assert Upserted(lines, kv) == Upserted(lines, other);
  }

  /** Setting by setting, any names and values make well-formed settings. */
  lemma SettingsGrow(kv: Settings, k: string, v: string)
    requires WellFormed(kv)
    ensures WellFormed(Settings([], map[]))
    ensures k !in kv.names <==> WellFormed(Settings(kv.names + [k], kv.values[k := v]))
    ensures Writable(kv) && k !in kv.names && IsIdentifier(k) && NoBreaks(v) ==>
              Writable(Settings(kv.names + [k], kv.values[k := v]))
  {
    var more := Settings(kv.names + [k], kv.values[k := v]);
    if i :| 0 <= i < |kv.names| && kv.names[i] == k {
      assert more.names[i] == more.names[|kv.names|];
    } else {
      forall x | Wanted(more, x)
        ensures x == k || Wanted(kv, x)
      {
      }
    }
  }
}
