/** The server's `.env` file: how a setting is looked up in it, and how a generated key is added. */
module EnvFile {
  import opened Wrappers

  // ----- Text -----

  /** The characters with the Unicode White_Space property. */
  predicate IsSpace(c: char) {
    var n := c as int;
    9 <= n <= 13 || n == 0x20 || n == 0x85 || n == 0xA0 || n == 0x1680 || 0x2000 <= n <= 0x200A
    || n == 0x2028 || n == 0x2029 || n == 0x202F || n == 0x205F || n == 0x3000
  }

  predicate IsDoubleQuote(c: char) {
    c == '\"'
  }

  predicate IsSingleQuote(c: char) {
    c == '\''
  }

  function TrimStart(s: string, drop: char -> bool): (t: string)
    ensures |t| <= |s|
  {
    if s != "" && drop(s[0]) then TrimStart(s[1..], drop) else s
  }

  function TrimEnd(s: string, drop: char -> bool): (t: string)
    ensures |t| <= |s|
  {
    if s != "" && drop(s[|s| - 1]) then TrimEnd(s[..|s| - 1], drop) else s
  }

  function TrimBy(s: string, drop: char -> bool): string {
    TrimEnd(TrimStart(s, drop), drop)
  }

  function Trim(s: string): string {
    TrimBy(s, IsSpace)
  }

  function Unquoted(s: string): string {
    TrimBy(TrimBy(s, IsDoubleQuote), IsSingleQuote)
  }

  /** The first position of `c`, or the length. */
  function Find(s: string, c: char): (i: nat)
    ensures i <= |s| && c !in s[..i] && (i < |s| ==> s[i] == c)
  {
    if s == "" || s[0] == c then 0 else 1 + Find(s[1..], c)
  }

  function Lines(s: string): seq<string>
    decreases |s|
  {
    if s == "" then []
    else
      var i := Find(s, '\n');
      [s[..i]] + if i < |s| then Lines(s[i + 1..]) else []
  }

  // ----- Lookup -----

  /** The name and value a line sets; most lines without `=` set nothing. */
  function Setting(line: string): Option<(string, string)> {
    var l := Trim(line);
    var eq := Find(l, '=');
    if eq == |l| then None else Some((Trim(l[..eq]), Unquoted(Trim(l[eq + 1..]))))
  }

  predicate Sets(line: string, name: string) {
    Setting(line).Some? && Setting(line).value.0 == name && Setting(line).value.1 != ""
  }

  /** The first non-empty value of `name`. */
  function LookupIn(lines: seq<string>, name: string): Option<string> {
    if lines == [] then None
    else if Sets(lines[0], name) then Some(Setting(lines[0]).value.1)
    else LookupIn(lines[1..], name)
  }

  function Lookup(contents: string, name: string): Option<string> {
    LookupIn(Lines(contents), name)
  }

  /** The file as it is on disk; one that is not UTF-8 cannot be read as text. */
  datatype File = Absent | NotText | Text(contents: string)

  function ReadToString(file: File): Option<string> {
    if file.Text? then Some(file.contents) else None
  }

  /** What the environment variable, and else the file, gives a name. */
  function Known(env: Option<string>, file: File, name: string): Option<string> {
    if env.Some? && env.value != "" then env
    else if file.Text? then Lookup(file.contents, name)
    else None
  }

  method LoadOptionalEnv(env: Option<string>, file: File, name: string) returns (r: Option<string>)
    ensures r == Known(env, file, name)
    ensures env.Some? && env.value != "" ==> r == env
    ensures (env.None? || env.value == "") && file.Text? ==> r == Lookup(file.contents, name)
    ensures (env.None? || env.value == "") && !file.Text? ==> r == None
  {
    if env.Some? && env.value != "" {
      return env;
    }
    var contents := ReadToString(file);
    if contents.Some? {
      r := FindInFile(contents.value, name);
      return;
    }
    return None;
  }

  method FindInFile(contents: string, name: string) returns (r: Option<string>)
    ensures r == Lookup(contents, name)
  {
    var lines := Lines(contents);
    for i := 0 to |lines|
      invariant LookupIn(lines, name) == LookupIn(lines[i..], name)
    {
      LookupStep(lines, i, name);
      var val := ValueIn(lines[i], name);
      if val != "" {
        return Some(val);
      }
    }
    return None;
  }

  /** The value one line gives the name, or nothing. */
  method ValueIn(raw: string, name: string) returns (val: string)
    ensures val == if Sets(raw, name) then Setting(raw).value.1 else ""
  {
    var line := Trim(raw);
    var eq := Find(line, '=');
    if eq == |line| || Trim(line[..eq]) != name {
      return "";
    }
    return Unquoted(Trim(line[eq + 1..]));
  }

  lemma LookupStep(lines: seq<string>, i: nat, name: string)
    requires i < |lines|
    ensures LookupIn(lines[i..], name) ==
            if Sets(lines[i], name) then Some(Setting(lines[i]).value.1) else LookupIn(lines[i + 1..], name)
  {
    assert lines[i..][0] == lines[i] && lines[i..][1..] == lines[i + 1..];
  }

  function Added(name: string, key: string): string {
    name + " = " + key + "\n"
  }

  /**
    `generated` is the random key. The file is written only when the key is new,
    and stays as it was if that fails; a file that is not text is replaced.
  */
  method LoadOrGenerateKey(env: Option<string>, file: File, name: string, generated: string, writable: bool)
      returns (key: string, file': File)
    ensures var known := Known(env, file, name);
            && key == known.GetOr(generated)
            && file' == if known.None? && writable then Text(ReadToString(file).GetOr("") + Added(name, generated)) else file
    ensures env.Some? && env.value != "" ==> key == env.value && file' == file
    ensures (env.None? || env.value == "") && file.Text? && Lookup(file.contents, name).Some? ==>
              Some(key) == Lookup(file.contents, name) && file' == file
    ensures (env.None? || env.value == "") && !(file.Text? && Lookup(file.contents, name).Some?) ==>
              key == generated
              && file' == if !writable then file else Text((if file.Text? then file.contents else "") + Added(name, generated))
  {
    file' := file;
    key := generated;
    if env.Some? && env.value != "" {
      return env.value, file';
    }
    var contents := ReadToString(file);
    if contents.Some? {
      var found := FindInFile(contents.value, name);
      if found.Some? {
        return found.value, file';
      }
      if writable {
        file' := Text(contents.value + Added(name, key));
      }
    } else if writable {
      file' := Text(Added(name, key));
    }
  }

  // ----- Appending -----

  predicate IsWordChar(c: char) {
    'a' <= c <= 'z' || 'A' <= c <= 'Z' || '0' <= c <= '9' || c == '_'
  }

  /** Names like JWT_SECRET, and generated keys. */
  predicate IsWord(s: string) {
    s != "" && forall c :: c in s ==> IsWordChar(c)
  }

  predicate Blank(s: string) {
    forall c :: c in s ==> IsSpace(c)
  }

  /** Where the last, unfinished line starts. */
  function Unfinished(s: string): (i: nat)
    ensures i <= |s| && '\n' !in s[i..] && (i > 0 ==> s[i - 1] == '\n')
  {
    if s == "" || s[|s| - 1] == '\n' then |s|
    else
      var i := Unfinished(s[..|s| - 1]);
      assert s[i..] == s[..|s| - 1][i..] + [s[|s| - 1]];
      i
  }

  lemma {:induction false} FindNone(s: string, c: char)
    requires c !in s
    ensures Find(s, c) == |s|
  {
    if s != "" {
      FindNone(s[1..], c);
    }
  }

  lemma {:induction false} FindIs(s: string, c: char, i: nat)
    requires i < |s| && s[i] == c && c !in s[..i]
    ensures Find(s, c) == i
  {
    if i > 0 {
      assert s[..i][0] == s[0] && s[1..][..i - 1] == s[..i][1..];
      FindIs(s[1..], c, i - 1);
    }
  }

  lemma FirstLine(s: string, i: nat)
    requires i < |s| && s[i] == '\n' && '\n' !in s[..i]
    ensures Lines(s) == [s[..i]] + Lines(s[i + 1..])
  {
    FindIs(s, '\n', i);
  }

  lemma OnlyLine(l: string)
    requires '\n' !in l
    ensures Lines(l) == if l == "" then [] else [l]
  {
    FindNone(l, '\n');
    assert l[..|l|] == l;
  }

  lemma Regroup(all: seq<string>, h: string, rest: seq<string>, b: seq<string>)
    requires all == [h] + (rest + b)
    ensures all == ([h] + rest) + b
  {
  }

  lemma {:induction false} LinesConcat(s: string, t: string)
    requires s == "" || s[|s| - 1] == '\n'
    ensures Lines(s + t) == Lines(s) + Lines(t)
    decreases |s|
  {
    if s == "" {
      assert s + t == t;
    } else {
      FindPrefix(s, "", '\n');
      LinesConcatAt(s, t, Find(s, '\n'));
    }
  }

  lemma LinesConcatAt(s: string, t: string, i: nat)
    requires i < |s| && s[i] == s[|s| - 1] == '\n' && '\n' !in s[..i]
    ensures Lines(s + t) == Lines(s) + Lines(t)
    decreases |s|, 0
  {
    var rest := s[i + 1..];
    assert rest == "" || rest[|rest| - 1] == s[|s| - 1];
    FirstLine(s, i);
    SameFirstLine(s, t, i);
    LinesConcat(rest, t);
    Regroup(Lines(s + t), s[..i], Lines(rest), Lines(t));
  }

  lemma SameFirstLine(s: string, t: string, i: nat)
    requires i < |s| && s[i] == '\n' && '\n' !in s[..i]
    ensures Lines(s + t) == [s[..i]] + Lines(s[i + 1..] + t)
  {
    assert (s + t)[..i] == s[..i];
    assert (s + t)[i + 1..] == s[i + 1..] + t;
    FirstLine(s + t, i);
  }

  lemma {:induction false} FindPrefix(s: string, t: string, c: char)
    requires c in s
    ensures Find(s + t, c) == Find(s, c) < |s|
  {
    if s[0] != c {
      assert (s + t)[1..] == s[1..] + t;
      FindPrefix(s[1..], t, c);
    }
  }

  lemma {:induction false} FindPast(s: string, t: string, c: char)
    requires c !in s
    ensures Find(s + t, c) == |s| + Find(t, c)
  {
    if s == "" {
      assert s + t == t;
    } else {
      assert (s + t)[1..] == s[1..] + t;
      FindPast(s[1..], t, c);
    }
  }

  lemma {:induction false} LookupConcat(a: seq<string>, b: seq<string>, name: string)
    ensures LookupIn(a + b, name) == if LookupIn(a, name).Some? then LookupIn(a, name) else LookupIn(b, name)
  {
    if a == [] {
      assert a + b == b;
    } else {
      assert (a + b)[1..] == a[1..] + b;
      LookupConcat(a[1..], b, name);
    }
  }

  /** Appending `name = key` completes the unfinished line, and changes no other. */
  lemma LinesAfterAdding(s: string, name: string, key: string)
    requires IsWord(name) && IsWord(key)
    ensures var u := Unfinished(s);
            && Lines(s) == Lines(s[..u]) + (if u == |s| then [] else [s[u..]])
            && Lines(s + Added(name, key)) == Lines(s[..u]) + [s[u..] + name + " = " + key]
  {
    var u := Unfinished(s);
    LinesSplit(s, u);
    OnlyLine(s[u..]);
    LinesSplitAfter(s, u, Added(name, key));
    CompletedLine(s[u..], name, key);
  }

  lemma LinesSplit(s: string, u: nat)
    requires u <= |s| && (u == 0 || s[u - 1] == '\n')
    ensures Lines(s) == Lines(s[..u]) + Lines(s[u..])
  {
    assert s == s[..u] + s[u..];
    LinesConcat(s[..u], s[u..]);
  }

  lemma LinesSplitAfter(s: string, u: nat, added: string)
    requires u <= |s| && (u == 0 || s[u - 1] == '\n')
    ensures Lines(s + added) == Lines(s[..u]) + Lines(s[u..] + added)
  {
    assert (s + added)[..u] == s[..u] && (s + added)[u..] == s[u..] + added;
    LinesSplit(s + added, u);
  }

  lemma CompletedLine(rest: string, name: string, key: string)
    requires IsWord(name) && IsWord(key) && '\n' !in rest
    ensures Lines(rest + Added(name, key)) == [rest + name + " = " + key]
  {
    WholeLine(rest + name + " = " + key);
    Reassociate(rest, name, " = ", key, "\n");
  }

  lemma Reassociate(a: string, b: string, c: string, d: string, e: string)
    ensures a + (b + c + d + e) == (a + b + c + d) + e
  {
  }

  lemma WholeLine(line: string)
    requires '\n' !in line
    ensures Lines(line + "\n") == [line]
  {
    var s := line + "\n";
    assert s[..|line|] == line && s[|line| + 1..] == "";
    FirstLine(s, |line|);
  }

  lemma {:induction false} TrimStartBefore(x: string, y: string, drop: char -> bool)
    requires y != "" && !drop(y[0])
    ensures TrimStart(x + y, drop) == TrimStart(x, drop) + y
  {
    if x == "" {
      assert x + y == y;
    } else {
      assert (x + y)[1..] == x[1..] + y;
      if drop(x[0]) {
        TrimStartBefore(x[1..], y, drop);
      }
    }
  }

  lemma TrimAround(x: string, y: string, drop: char -> bool)
    requires y != "" && !drop(y[0]) && !drop(y[|y| - 1])
    ensures TrimBy(x + y, drop) == TrimStart(x, drop) + y
  {
    TrimStartBefore(x, y, drop);
  }

  /** A word that follows a blank start and ends the line, give or take one space, is what trimming leaves. */
  lemma TrimTrailingSpace(x: string, y: string)
    requires y != "" && !IsSpace(y[0]) && !IsSpace(y[|y| - 1])
    ensures Trim(x + y + " ") == TrimStart(x, IsSpace) + y
  {
    var z := y + " ";
    TrimStartBefore(x, z, IsSpace);
    assert x + y + " " == x + z;
    var t := TrimStart(x, IsSpace) + z;
    assert t[..|t| - 1] == TrimStart(x, IsSpace) + y;
    assert TrimEnd(t, IsSpace) == TrimEnd(t[..|t| - 1], IsSpace);
  }

  lemma {:induction false} TrimStartFacts(s: string)
    ensures TrimStart(TrimStart(s, IsSpace), IsSpace) == TrimStart(s, IsSpace)
    ensures TrimStart(s, IsSpace) == "" <==> Blank(s)
    ensures '=' in TrimStart(s, IsSpace) <==> '=' in s
  {
    if s != "" {
      assert s == [s[0]] + s[1..];
      if IsSpace(s[0]) {
        TrimStartFacts(s[1..]);
      }
    }
  }

  lemma WordEnds(w: string)
    requires IsWord(w)
    ensures !IsSpace(w[0]) && !IsSpace(w[|w| - 1])
    ensures !IsDoubleQuote(w[0]) && !IsDoubleQuote(w[|w| - 1]) && !IsSingleQuote(w[0]) && !IsSingleQuote(w[|w| - 1])
    ensures '=' !in w
  {
    assert w[0] in w && w[|w| - 1] in w;
  }

  lemma WordValue(key: string)
    requires IsWord(key)
    ensures Unquoted(Trim(" " + key)) == key
  {
    WordEnds(key);
    TrimAround(" ", key, IsSpace);
    assert " "[1..] == "" && TrimStart(" ", IsSpace) == TrimStart("", IsSpace);
    assert "" + key == key;
    TrimAround("", key, IsDoubleQuote);
    TrimAround("", key, IsSingleQuote);
  }

  /** After an unfinished line without `=`, the added text names a longer name than it should. */
  lemma SettingWithoutEquals(l: string, name: string, key: string)
    requires IsWord(name) && IsWord(key) && '=' !in l
    ensures Setting(l + name + " = " + key) == Some((TrimStart(l, IsSpace) + name, key))
  {
    var start := TrimStart(l, IsSpace);
    TrimStartFacts(l);
    TrimmedAddition(l, name, key);
    WordEnds(name);
    SettingIs(l + name + " = " + key, start + name + " ", " " + key);
    TrimTrailingSpace(start, name);
    WordValue(key);
  }

  lemma TrimmedAddition(l: string, name: string, key: string)
    requires IsWord(name) && IsWord(key)
    ensures Trim(l + name + " = " + key) == TrimStart(l, IsSpace) + name + " " + "=" + (" " + key)
  {
    WordEnds(name);
    WordEnds(key);
    var tail := name + " = " + key;
    assert l + name + " = " + key == l + tail;
    TrimAround(l, tail, IsSpace);
    RegroupTail(TrimStart(l, IsSpace), name, key);
  }

  lemma RegroupTail(start: string, name: string, key: string)
    ensures start + (name + " = " + key) == start + name + " " + "=" + (" " + key)
  {
  }

  lemma SettingIs(line: string, before: string, after: string)
    requires Trim(line) == before + "=" + after && '=' !in before
    ensures Setting(line) == Some((Trim(before), Unquoted(Trim(after))))
  {
    var l := Trim(line);
    assert l[..|before|] == before && l[|before| + 1..] == after;
    FindIs(l, '=', |before|);
  }

  /** A value with what is trimmed in front of it taken away. */
  function Opened(value: string): string {
    TrimStart(TrimStart(TrimStart(value, IsSpace), IsDoubleQuote), IsSingleQuote)
  }

  /** The name of a line, up to its first `=`, and what follows. */
  function Halves(l: string): (h: (string, string))
    requires '=' in l
    ensures TrimStart(l, IsSpace) == h.0 + "=" + h.1 && '=' !in h.0
  {
    var start := TrimStart(l, IsSpace);
    TrimStartFacts(l);
    FindPrefix(start, "", '=');
    assert start + "" == start;
    (start[..Find(start, '=')], start[Find(start, '=') + 1..])
  }

  /** After an unfinished line with `=`, the added text becomes part of that line's value. */
  lemma SettingWithEquals(l: string, name: string, key: string)
    requires IsWord(name) && IsWord(key) && '=' in l
    ensures Setting(l + name + " = " + key) == Some((Trim(Halves(l).0), Opened(Halves(l).1) + (name + " = " + key)))
  {
    var tail, start := name + " = " + key, TrimStart(l, IsSpace);
    var (before, rest) := Halves(l);
    WordEnds(name);
    WordEnds(key);
    assert l + name + " = " + key == l + tail;
    TrimAround(l, tail, IsSpace);
    TrimStartFacts(l);
    FindPrefix(start, tail, '=');
    assert start + tail == before + "=" + (rest + tail);
    SettingIs(l + tail, before, rest + tail);
    TrimAround(rest, tail, IsSpace);
    TrimAround(TrimStart(rest, IsSpace), tail, IsDoubleQuote);
    TrimAround(TrimStart(TrimStart(rest, IsSpace), IsDoubleQuote), tail, IsSingleQuote);
  }

  lemma {:induction false} TrimStartPrefix(s: string, t: string, drop: char -> bool)
    requires t <= s
    ensures TrimStart(t, drop) <= TrimStart(s, drop)
  {
    if t != "" && drop(t[0]) {
      TrimStartPrefix(s[1..], t[1..], drop);
    }
  }

  /** Trimming the end stops at the last character that is not dropped. */
  lemma {:induction false} TrimEndPrefix(s: string, drop: char -> bool)
    ensures TrimEnd(s, drop) <= s
    ensures forall i :: 0 <= i < |s| && !drop(s[i]) ==> i < |TrimEnd(s, drop)|
  {
    if s != "" && drop(s[|s| - 1]) {
      TrimEndPrefix(s[..|s| - 1], drop);
    }
  }

  lemma TrimByPrefix(s: string, t: string, drop: char -> bool)
    requires t <= s
    ensures TrimBy(t, drop) <= TrimStart(s, drop)
  {
    TrimStartPrefix(s, t, drop);
    TrimEndPrefix(TrimStart(t, drop), drop);
  }

  lemma UnquotedPrefix(s: string, t: string)
    requires t <= s
    ensures Unquoted(Trim(t)) <= Opened(s)
  {
    TrimByPrefix(s, t, IsSpace);
    TrimByPrefix(TrimStart(s, IsSpace), Trim(t), IsDoubleQuote);
    TrimByPrefix(TrimStart(TrimStart(s, IsSpace), IsDoubleQuote), TrimBy(Trim(t), IsDoubleQuote), IsSingleQuote);
  }

  /** What the line set before it was completed: the same name, and no more than the start of the value. */
  lemma UnfinishedSetting(l: string)
    requires '=' in l
    ensures Setting(l).Some? && Setting(l).value.0 == Trim(Halves(l).0) && Setting(l).value.1 <= Opened(Halves(l).1)
  {
    var start, t := TrimStart(l, IsSpace), Trim(l);
    var (before, rest) := Halves(l);
    assert start[|before|] == '=' && !IsSpace('=');
    TrimEndPrefix(start, IsSpace);
    var left := t[|before| + 1..];
    assert t == before + "=" + left;
    SettingIs(l, before, left);
    UnquotedPrefix(rest, left);
  }

  lemma BlankSetsNothing(l: string)
    requires Blank(l)
    ensures Setting(l) == None
  {
    TrimStartFacts(l);
  }

  // ----- Main results -----

  /**
    A generated key is found again on the next load if and only if the last,
    unfinished line of the file is blank; in particular whenever the file is
    empty or ends with a newline.
  */
  lemma GeneratedKeyIsFoundIff(s: string, name: string, key: string)
    requires IsWord(name) && IsWord(key) && Lookup(s, name) == None
    ensures Lookup(s + Added(name, key), name) == Some(key) <==> Blank(s[Unfinished(s)..])
  {
    var l := s[Unfinished(s)..];
    LookupAfterAdding(s, name, key, name);
    TrimStartFacts(l);
    if '=' in l {
      SettingWithEquals(l, name, key);
      assert |Opened(Halves(l).1) + (name + " = " + key)| > |key|;
      assert !IsSpace('=');
    } else {
      SettingWithoutEquals(l, name, key);
      assert |TrimStart(l, IsSpace) + name| == |TrimStart(l, IsSpace)| + |name|;
    }
  }

  /** And then no other setting changes. */
  lemma OtherSettingsUnchanged(s: string, name: string, key: string, other: string)
    requires IsWord(name) && IsWord(key) && Blank(s[Unfinished(s)..]) && other != name
    ensures Lookup(s + Added(name, key), other) == Lookup(s, other)
  {
    var l := s[Unfinished(s)..];
    LookupAfterAdding(s, name, key, other);
    TrimStartFacts(l);
    assert !IsSpace('=');
    SettingWithoutEquals(l, name, key);
    assert TrimStart(l, IsSpace) + name == name;
  }

  /** The name that the unfinished line sets once it is completed. */
  function CompletedName(l: string, name: string): string {
    if '=' in l then Trim(Halves(l).0) else TrimStart(l, IsSpace) + name
  }

  /** The completed line sets that name, to a value the line did not set before. */
  lemma CompletedLineSets(l: string, name: string, key: string)
    requires IsWord(name) && IsWord(key)
    ensures var n, line := CompletedName(l, name), l + name + " = " + key;
            && Sets(line, n)
            && (Sets(l, n) ==> Setting(l).value.1 != Setting(line).value.1)
            && forall x :: x != n ==> !Sets(line, x) && !Sets(l, x)
  {
    if '=' in l {
      SettingWithEquals(l, name, key);
      UnfinishedSetting(l);
    } else {
      SettingWithoutEquals(l, name, key);
      NoSetting(l);
    }
  }

  lemma NoSetting(l: string)
    requires '=' !in l
    ensures Setting(l) == None
  {
    var start := TrimStart(l, IsSpace);
    TrimStartFacts(l);
    TrimEndPrefix(start, IsSpace);
    FindNone(Trim(l), '=');
  }

  /**
    In general, all other settings stay as they are if and only if the line
    that the addition completes sets the generated name, or a name that an
    earlier line has set already.
  */
  lemma OtherSettingsUnchangedIff(s: string, name: string, key: string)
    requires IsWord(name) && IsWord(key)
    ensures var u, n := Unfinished(s), CompletedName(s[Unfinished(s)..], name);
            (forall other :: other != name ==> Lookup(s + Added(name, key), other) == Lookup(s, other))
            <==> n == name || LookupIn(Lines(s[..u]), n).Some?
  {
    var l, n := s[Unfinished(s)..], CompletedName(s[Unfinished(s)..], name);
    CompletedLineSets(l, name, key);
    LookupAfterAdding(s, name, key, n);
    forall other | other != n ensures Lookup(s + Added(name, key), other) == Lookup(s, other) {
      LookupAfterAdding(s, name, key, other);
    }
  }

  /** A file that was replaced, or is new, holds the one setting and no other. */
  lemma ReplacedFileHoldsOneSetting(name: string, key: string, other: string)
    requires IsWord(name) && IsWord(key)
    ensures Lookup("" + Added(name, key), other) == if other == name then Some(key) else None
  {
    GeneratedKeyIsFoundIff("", name, key);
    if other != name {
      OtherSettingsUnchanged("", name, key, other);
    }
  }

  /** Only the completed line can answer differently than before. */
  lemma LookupAfterAdding(s: string, name: string, key: string, x: string)
    requires IsWord(name) && IsWord(key)
    ensures var l := s[Unfinished(s)..];
            var line, before := l + name + " = " + key, LookupIn(Lines(s[..Unfinished(s)]), x);
            && Lookup(s + Added(name, key), x) ==
                 (if before.Some? then before else if Sets(line, x) then Some(Setting(line).value.1) else None)
            && Lookup(s, x) ==
                 (if before.Some? then before else if Sets(l, x) then Some(Setting(l).value.1) else None)
  {
    var u := Unfinished(s);
    var l, lines := s[u..], Lines(s[..u]);
    var line := l + name + " = " + key;
    LinesAfterAdding(s, name, key);
    LookupConcat(lines, [line], x);
    OneLookup(line, x);
    OneLookup(l, x);
    if u == |s| {
      BlankSetsNothing(l);
      LookupConcat(lines, [], x);
    } else {
      LookupConcat(lines, [l], x);
    }
  }

  lemma OneLookup(line: string, x: string)
    ensures LookupIn([line], x) == if Sets(line, x) then Some(Setting(line).value.1) else None
  {
    assert [line][1..] == [];
  }

  // ----- Which line a lookup finds -----

  ghost predicate GivesValue(line: string, name: string) {
    exists v :: v != "" && Setting(line) == Some((name, v))
  }

  /** Line `i` sets the name to `v`, and no line before it to anything. */
  ghost predicate GivesFirst(lines: seq<string>, i: nat, name: string, v: string)
    requires i < |lines|
  {
    Setting(lines[i]) == Some((name, v)) && forall j :: 0 <= j < i ==> !GivesValue(lines[j], name)
  }

  lemma SetsGives(line: string, name: string)
    ensures Sets(line, name) <==> GivesValue(line, name)
  {
    if Sets(line, name) {
      var v := Setting(line).value.1;
      assert v != "" && Setting(line) == Some((name, v));
    }
  }

  lemma {:induction false} FoundIsFirst(lines: seq<string>, name: string) returns (i: nat)
    requires LookupIn(lines, name).Some?
    ensures i < |lines| && GivesFirst(lines, i, name, LookupIn(lines, name).value) && LookupIn(lines, name).value != ""
  {
    i := 0;
    SetsGives(lines[0], name);
    if !Sets(lines[0], name) {
      var k := FoundIsFirst(lines[1..], name);
      FirstIsLater(lines, k, name, LookupIn(lines[1..], name).value);
      i := k + 1;
    }
  }

  lemma FirstIsLater(lines: seq<string>, k: nat, name: string, v: string)
    requires k + 1 < |lines| && !GivesValue(lines[0], name) && GivesFirst(lines[1..], k, name, v)
    ensures GivesFirst(lines, k + 1, name, v)
  {
    forall j | 0 <= j < k + 1 ensures !GivesValue(lines[j], name) {
      assert j > 0 ==> lines[j] == lines[1..][j - 1];
    }
  }

  lemma {:induction false} FirstIsFound(lines: seq<string>, i: nat, name: string, v: string)
    requires i < |lines| && v != "" && GivesFirst(lines, i, name, v)
    ensures LookupIn(lines, name) == Some(v)
    decreases |lines|
  {
    SetsGives(lines[0], name);
    if i > 0 {
      assert forall j :: 0 <= j < i - 1 ==> lines[1..][j] == lines[j + 1];
      FirstIsFound(lines[1..], i - 1, name, v);
    }
  }

  /** A lookup finds the first line that gives the name a value that is not empty. */
  lemma LookupIsFirst(lines: seq<string>, name: string, v: string)
    ensures LookupIn(lines, name) == Some(v) <==> v != "" && exists i :: 0 <= i < |lines| && GivesFirst(lines, i, name, v)
  {
    if LookupIn(lines, name).Some? {
      var i := FoundIsFirst(lines, name);
    }
    if v != "" && exists i :: 0 <= i < |lines| && GivesFirst(lines, i, name, v) {
      var i :| 0 <= i < |lines| && GivesFirst(lines, i, name, v);
      FirstIsFound(lines, i, name, v);
    }
  }

  // ----- What a line sets -----

  lemma {:induction false} TrimEndAfter(y: string, z: string, drop: char -> bool)
    requires y != "" && !drop(y[|y| - 1]) && forall c :: c in z ==> drop(c)
    ensures TrimEnd(y + z, drop) == y
  {
    if z == "" {
      assert y + z == y;
    } else {
      assert (y + z)[..|y + z| - 1] == y + z[..|z| - 1];
      TrimEndAfter(y, z[..|z| - 1], drop);
    }
  }

  lemma {:induction false} TrimStartAll(x: string, drop: char -> bool)
    requires forall c :: c in x ==> drop(c)
    ensures TrimStart(x, drop) == ""
  {
    if x != "" {
      TrimStartAll(x[1..], drop);
    }
  }

  /** Trimming takes away what it may on both sides, and nothing else. */
  lemma TrimBoth(x: string, y: string, z: string, drop: char -> bool)
    requires y != "" && !drop(y[0]) && !drop(y[|y| - 1])
    requires (forall c :: c in x ==> drop(c)) && forall c :: c in z ==> drop(c)
    ensures TrimBy(x + y + z, drop) == y
  {
    assert x + y + z == x + (y + z);
    TrimStartBefore(x, y + z, drop);
    TrimStartAll(x, drop);
    assert "" + (y + z) == y + z;
    TrimEndAfter(y, z, drop);
  }

  predicate IsQuote(q: string) {
    q == "" || q == "\"" || q == "\'"
  }

  /** Quotes of either kind around a word are taken away. */
  lemma UnquotedWord(q: string, v: string)
    requires IsQuote(q) && IsWord(v)
    ensures Unquoted(q + v + q) == v
  {
    WordEnds(v);
    var s := q + v + q;
    if q == "\"" {
      TrimBoth(q, v, q, IsDoubleQuote);
      TrimBoth("", v, "", IsSingleQuote);
      assert "" + v + "" == v;
    } else {
      TrimBoth("", s, "", IsDoubleQuote);
      assert "" + s + "" == s;
      TrimBoth(q, v, q, IsSingleQuote);
    }
  }

  lemma LineSplits(a: string, before: string, after: string, d: string)
    requires Blank(a) && Blank(d) && '=' !in before
    requires before != "" && !IsSpace(before[0]) && after != "" && !IsSpace(after[|after| - 1])
    ensures Setting(a + (before + "=" + after) + d) == Some((Trim(before), Unquoted(Trim(after))))
  {
    var core := before + "=" + after;
    assert core[0] == before[0] && core[|core| - 1] == after[|after| - 1];
    TrimBoth(a, core, d, IsSpace);
    SettingIs(a + core + d, before, after);
  }

  lemma TrimAfter(name: string, b: string)
    requires IsWord(name) && Blank(b)
    ensures Trim(name + b) == name
  {
    WordEnds(name);
    TrimBoth("", name, b, IsSpace);
    assert "" + name == name;
  }

  lemma TrimBefore(c: string, y: string)
    requires Blank(c) && y != "" && !IsSpace(y[0]) && !IsSpace(y[|y| - 1])
    ensures Trim(c + y) == y
  {
    TrimBoth(c, y, "", IsSpace);
    assert c + y + "" == c + y;
  }

  /** A line sets the word before the `=` to the word behind it, whatever blanks stand around them and with either kind of quotes or none. */
  lemma SettingOfWords(a: string, name: string, b: string, c: string, q: string, v: string, d: string)
    requires IsWord(name) && IsWord(v) && IsQuote(q) && Blank(a) && Blank(b) && Blank(c) && Blank(d)
    ensures Setting(a + ((name + b) + "=" + (c + (q + v + q))) + d) == Some((name, v))
  {
    WordEnds(name);
    QuotedEnds(q, v);
    assert !IsSpace('=') && '=' !in b;
    LineSplits(a, name + b, c + (q + v + q), d);
    TrimAfter(name, b);
    TrimBefore(c, q + v + q);
    UnquotedWord(q, v);
  }

  lemma QuotedEnds(q: string, v: string)
    requires IsQuote(q) && IsWord(v)
    ensures var y := q + v + q;
            y != "" && !IsSpace(y[0]) && !IsSpace(y[|y| - 1])
  {
    WordEnds(v);
  }
}
