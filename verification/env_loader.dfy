/** The server's fallback `.env` loader: when the store's URL and key are not
    both set, every `KEY=VALUE` line of the file is read and assigned to the
    process environment unless that variable already has a value. */
module EnvLoader {
  import opened Wrappers
  import opened Seqs
  import opened Text

  const URL_VAR: string := "VITE_SUPABASE_URL"
  const KEY_VAR: string := "VITE_SUPABASE_ANON_KEY"

  /** `[A-Za-z0-9_]`, the characters of a variable name. */
  predicate IsKeyChar(c: char)
  {
    ('A' <= c <= 'Z') || ('a' <= c <= 'z') || ('0' <= c <= '9') || c == '_'
  }

  predicate IsKey(s: string)
  {
    s != [] && forall i :: 0 <= i < |s| ==> IsKeyChar(s[i])
  }

  /** The length of the longest prefix made of name characters. */
  function KeyLength(s: string): (n: nat)
    ensures n <= |s|
    ensures forall i :: 0 <= i < n ==> IsKeyChar(s[i])
    ensures n == |s| || !IsKeyChar(s[n])
  {
    if s != [] && IsKeyChar(s[0]) then 1 + KeyLength(s[1..]) else 0
  }

  /** The text before the first `c`, or all of `s`: what `[^c]*` matches. */
  function UpTo(s: string, c: char): (r: string)
    ensures |r| <= |s| && r == s[..|r|] && c !in r
    ensures r == s || s[|r|] == c
  {
    if c in s then s[..IndexOf(s, c)] else s
  }

  /** A value between quotes `q`: the text up to the closing quote, when the
      text opens with `q` and a closing one follows. */
  function Quoted(s: string, q: char): (r: Option<string>)
    ensures r.Some? <==> |s| > 0 && s[0] == q && q in s[1..]
    ensures r.Some? ==> q !in r.value && StartsWith(s[1..], r.value + [q])
  {
    if |s| > 0 && s[0] == q && q in s[1..] then Some(UpTo(s[1..], q)) else None
  }

  datatype Binding = Binding(key: string, value: string)

  /** The value after `=` and the spaces that follow it: a double-quoted
      text, else a single-quoted text, else the text before `#`, trimmed. */
  function ValueText(v: string): string
  {
    match Quoted(v, '"')
    case Some(d) => d
    case None =>
      match Quoted(v, '\'')
      case Some(d) => d
      case None => Trim(UpTo(v, '#'))
  }

  /** A line matched against `^\s*([A-Za-z0-9_]+)\s*=\s*(?:"([^"]*)"|'([^']*)'|([^#]*))?`. */
  function ParseLine(line: string): (r: Option<Binding>)
    ensures r.Some? ==> IsKey(r.value.key)
  {
    var s := TrimStart(line);
    var n := KeyLength(s);
    var afterKey := TrimStart(s[n..]);
    if n == 0 || afterKey == [] || afterKey[0] != '=' then None
    else
      KeyPrefix(s);
      Some(Binding(s[..n], ValueText(TrimStart(afterKey[1..]))))
  }

  /** The name characters a text opens with form a name, when there are any. */
  lemma KeyPrefix(s: string)
    requires KeyLength(s) > 0
    ensures IsKey(s[..KeyLength(s)])
  {
    var key := s[..KeyLength(s)];
    assert forall i :: 0 <= i < |key| ==> key[i] == s[i];
  }

  lemma {:induction false} KeyLengthOf(key: string, rest: string)
    requires forall i :: 0 <= i < |key| ==> IsKeyChar(key[i])
    requires rest == [] || !IsKeyChar(rest[0])
    ensures KeyLength(key + rest) == |key|
    decreases |key|
  {
    if key == [] {
      assert key + rest == rest;
    } else {
      assert (key + rest)[1..] == key[1..] + rest;
      KeyLengthOf(key[1..], rest);
    }
  }

  lemma TrimStartKeeps(s: string)
    requires s != [] && !IsSpace(s[0])
    ensures TrimStart(s) == s
  {
  }

  /** A line that opens with a name and `=` binds that name to the value read
      from what follows. */
  lemma AssignmentLine(key: string, tail: string)
    requires IsKey(key)
    ensures ParseLine(key + "=" + tail) == Some(Binding(key, ValueText(TrimStart(tail))))
  {
    var s := key + "=" + tail;
    assert s == key + ("=" + tail);
    KeyLengthOf(key, "=" + tail);
    TrimStartKeeps(s);
    assert s[|key|..] == "=" + tail;
    TrimStartKeeps("=" + tail);
    assert ("=" + tail)[1..] == tail;
  }

  predicate AllSpace(w: string)
  {
    forall i :: 0 <= i < |w| ==> IsSpace(w[i])
  }

  /** `line` is white space, the name `key`, white space, `=` and `tail`:
      the shape the pattern's head `^\s*([A-Za-z0-9_]+)\s*=` accepts. */
  predicate SplitsAs(line: string, w1: string, key: string, w2: string, tail: string)
  {
    line == w1 + key + w2 + "=" + tail && AllSpace(w1) && IsKey(key) && AllSpace(w2)
  }

  /** A line matches exactly when it has that shape, and it then binds the
      name to the value read after the spaces following `=`. */
  lemma ParseLineExactly(line: string)
    ensures ParseLine(line).Some? <==> exists w1, key, w2, tail :: SplitsAs(line, w1, key, w2, tail)
    ensures forall w1, key, w2, tail :: SplitsAs(line, w1, key, w2, tail) ==>
      ParseLine(line) == Some(Binding(key, ValueText(TrimStart(tail))))
  {
    forall w1, key, w2, tail | SplitsAs(line, w1, key, w2, tail)
      ensures ParseLine(line) == Some(Binding(key, ValueText(TrimStart(tail))))
    {
      ParseSplit(w1, key, w2, tail);
    }
    if ParseLine(line).Some? {
      ParsedHasShape(line);
    }
  }

  /** The pieces of a line that matched. */
  lemma ParsedHasShape(line: string)
    requires ParseLine(line).Some?
    ensures exists w1, key, w2, tail :: SplitsAs(line, w1, key, w2, tail)
  {
    var s := TrimStart(line);
    var n := KeyLength(s);
    var a := TrimStart(s[n..]);
    ParsedPieces(line);
    TrimStartSplit(line);
    TrimStartSplit(s[n..]);
    KeyPrefix(s);
    ShapeFromPieces(line, s, n, s[n..], a);
  }

  /** The pieces the parser's steps cut a line into give it the accepted shape. */
  lemma ShapeFromPieces(line: string, s: string, n: nat, rest: string, a: string)
    requires |s| <= |line| && AllSpace(line[..|line| - |s|]) && line == line[..|line| - |s|] + s
    requires 0 < n <= |s| && IsKey(s[..n]) && rest == s[n..]
    requires |a| <= |rest| && AllSpace(rest[..|rest| - |a|]) && rest == rest[..|rest| - |a|] + a
    requires a != [] && a[0] == '='
    ensures exists w1, key, w2, tail :: SplitsAs(line, w1, key, w2, tail)
  {
    var w1, key, w2, tail := line[..|line| - |s|], s[..n], rest[..|rest| - |a|], a[1..];
    SplitAt(s, n);
    EqualsFirst(a);
    Reassemble(line, w1, s, key, rest, w2, a, tail);
    assert SplitsAs(line, w1, key, w2, tail);
  }

  /** What a successful parse says about the intermediate texts. */
  lemma ParsedPieces(line: string)
    requires ParseLine(line).Some?
    ensures var s := TrimStart(line); var a := TrimStart(s[KeyLength(s)..]);
      KeyLength(s) > 0 && a != [] && a[0] == '='
  {
  }

  /** A text is the white space trimming removes followed by what is left. */
  lemma TrimStartSplit(x: string)
    ensures AllSpace(x[..|x| - |TrimStart(x)|])
    ensures x == x[..|x| - |TrimStart(x)|] + TrimStart(x)
  {
  }

  lemma SplitAt(x: string, n: nat)
    requires n <= |x|
    ensures x == x[..n] + x[n..]
  {
  }

  lemma EqualsFirst(a: string)
    requires a != [] && a[0] == '='
    ensures a == "=" + a[1..]
  {
  }

  lemma Reassemble(line: string, w1: string, s: string, key: string, rest: string, w2: string, a: string, tail: string)
    requires line == w1 + s && s == key + rest && rest == w2 + a && a == "=" + tail
    ensures line == w1 + key + w2 + "=" + tail
  {
  }

  /** Parsing a line of the accepted shape. */
  lemma ParseSplit(w1: string, key: string, w2: string, tail: string)
    requires AllSpace(w1) && IsKey(key) && AllSpace(w2)
    ensures ParseLine(w1 + key + w2 + "=" + tail) == Some(Binding(key, ValueText(TrimStart(tail))))
  {
    var rest := w2 + ("=" + tail);
    assert w1 + key + w2 + "=" + tail == w1 + key + rest;
    LeadingSpaces(w1, key, rest);
    KeyBeforeEquals(key, w2, tail);
    SpacesBeforeEquals(w2, tail);
    ParseAfterKey(w1 + key + rest, key, rest, tail);
  }

  lemma LeadingSpaces(w1: string, key: string, rest: string)
    requires AllSpace(w1) && IsKey(key)
    ensures TrimStart(w1 + key + rest) == key + rest
  {
    assert w1 + key + rest == w1 + (key + rest);
    assert (key + rest)[0] == key[0];
    SkipSpaces(w1, key + rest);
  }

  lemma KeyBeforeEquals(key: string, w2: string, tail: string)
    requires IsKey(key) && AllSpace(w2)
    ensures KeyLength(key + (w2 + ("=" + tail))) == |key|
  {
    var rest := w2 + ("=" + tail);
    assert rest[0] == if w2 == [] then '=' else w2[0];
    KeyLengthOf(key, rest);
  }

  lemma SpacesBeforeEquals(w2: string, tail: string)
    requires AllSpace(w2)
    ensures TrimStart(w2 + ("=" + tail)) == "=" + tail
  {
    SkipSpaces(w2, "=" + tail);
  }

  lemma ParseAfterKey(line: string, key: string, rest: string, tail: string)
    requires |key| > 0 && TrimStart(line) == key + rest && KeyLength(key + rest) == |key|
    requires TrimStart(rest) == "=" + tail
    ensures ParseLine(line) == Some(Binding(key, ValueText(TrimStart(tail))))
  {
    assert (key + rest)[|key|..] == rest && (key + rest)[..|key|] == key;
    assert ("=" + tail)[1..] == tail;
    ParseLineOf(line, key + rest, |key|, "=" + tail);
  }

  /** `ParseLine` in terms of its intermediate texts. */
  lemma ParseLineOf(line: string, s: string, n: nat, afterKey: string)
    requires TrimStart(line) == s && KeyLength(s) == n && n > 0
    requires TrimStart(s[n..]) == afterKey && afterKey != [] && afterKey[0] == '='
    ensures ParseLine(line) == Some(Binding(s[..n], ValueText(TrimStart(afterKey[1..]))))
  {
  }

  lemma SkipSpaces(w: string, x: string)
    requires AllSpace(w) && (x == [] || !IsSpace(x[0]))
    ensures TrimStart(w + x) == x
  {
    TrimStartAppend(w, x);
    TrimStartAllSpace(w);
    assert [] + x == x;
  }

  /** A quoted value is taken verbatim, up to the closing quote. */
  lemma ParseQuotedLine(key: string, q: char, v: string, rest: string)
    requires IsKey(key) && (q == '"' || q == '\'') && q !in v
    ensures ParseLine(key + "=" + ([q] + v + [q] + rest)) == Some(Binding(key, v))
  {
    var tail := [q] + v + [q] + rest;
    TrimStartKeeps(tail);
    QuotedValue(q, v, rest);
    AssignmentLine(key, tail);
  }

  lemma QuotedValue(q: char, v: string, rest: string)
    requires (q == '"' || q == '\'') && q !in v
    ensures ValueText([q] + v + [q] + rest) == v
  {
    var tail := [q] + v + [q] + rest;
    assert tail[1..] == v + [q] + rest;
    assert (v + [q] + rest)[|v|] == q;
    assert q in tail[1..];
    var d := Quoted(tail, q).value;
    assert StartsWith(tail[1..], d + [q]);
    assert d == v by {
      assert |d| == |v|;
      assert forall i :: 0 <= i < |v| ==> d[i] == tail[1..][i] == v[i];
    }
  }

  /** An unquoted value is cut at `#` and trimmed. */
  lemma ParseUnquotedLine(key: string, v: string, comment: string)
    requires IsKey(key) && '#' !in v && '"' !in v && '\'' !in v
    ensures ParseLine(key + "=" + (v + "#" + comment)) == Some(Binding(key, Trim(v)))
  {
    UnquotedValue(v, comment);
    AssignmentLine(key, v + "#" + comment);
  }

  lemma UnquotedValue(v: string, comment: string)
    requires '#' !in v && '"' !in v && '\'' !in v
    ensures ValueText(TrimStart(v + "#" + comment)) == Trim(v)
  {
    assert v + "#" + comment == v + ("#" + comment);
    TrimStartAppend(v, "#" + comment);
    var w := TrimStart(v);
    TrimStartAvoids(v, '#');
    TrimStartAvoids(v, '"');
    TrimStartAvoids(v, '\'');
    UnquotedText(w, comment);
    TrimStartIdempotent(v);
  }

  /** Trimming the front adds no character. */
  lemma TrimStartAvoids(v: string, c: char)
    requires c !in v
    ensures c !in TrimStart(v)
  {
    var w := TrimStart(v);
    assert forall i :: 0 <= i < |w| ==> w[i] == v[|v| - |w| + i];
  }

  lemma UnquotedText(w: string, comment: string)
    requires '#' !in w && '"' !in w && '\'' !in w
    ensures ValueText(w + ("#" + comment)) == Trim(UpTo(w + ("#" + comment), '#'))
    ensures UpTo(w + ("#" + comment), '#') == w
  {
    var t := w + ("#" + comment);
    assert t[|w|] == '#';
    if |w| > 0 {
      assert t[0] == w[0];
    }
    assert t[..|w|] == w;
  }

  lemma {:induction false} TrimStartAppend(a: string, b: string)
    requires b == [] || !IsSpace(b[0])
    ensures TrimStart(a + b) == TrimStart(a) + b
    decreases |a|
  {
    if a == [] {
      assert a + b == b;
      if b != [] {
        TrimStartKeeps(b);
      }
    } else if IsSpace(a[0]) {
      assert (a + b)[1..] == a[1..] + b;
      TrimStartAppend(a[1..], b);
    }
  }

  lemma TrimStartIdempotent(s: string)
    ensures Trim(TrimStart(s)) == Trim(s)
  {
    var t := TrimStart(s);
    if t != [] {
      TrimStartKeeps(t);
    }
  }

  // ---------------------------------------------------------------- lines and the environment

  /** One trailing carriage return removed. */
  function DropCR(s: string): string
  {
    if s != [] && s[|s| - 1] == '\r' then s[..|s| - 1] else s
  }

  /** `content.split(/\r?\n/)`: the pieces between line feeds, each but the last
      without the carriage return in front of its line feed. */
  function Lines(content: string): seq<string>
  {
    DropCRs(Split(content, '\n'))
  }

  /** Every piece but the last without its trailing carriage return. */
  function DropCRs(parts: seq<string>): seq<string>
  {
    if |parts| <= 1 then parts else [DropCR(parts[0])] + DropCRs(parts[1..])
  }

  /** Without carriage returns the lines are exactly the pieces between line feeds. */
  lemma LinesWithoutCR(content: string)
    requires '\r' !in content
    ensures Lines(content) == Split(content, '\n')
  {
    var parts := Split(content, '\n');
    JoinSplit(content, '\n');
    forall i | 0 <= i < |parts| - 1
      ensures DropCR(parts[i]) == parts[i]
    {
      if parts[i] != [] {
        JoinHoldsPart(parts, '\n', i);
      }
    }
    DropCRsKeeps(parts);
  }

  lemma {:induction false} DropCRsKeeps(parts: seq<string>)
    requires forall i :: 0 <= i < |parts| - 1 ==> DropCR(parts[i]) == parts[i]
    ensures DropCRs(parts) == parts
    decreases |parts|
  {
    if |parts| > 1 {
      DropCRsKeeps(parts[1..]);
    }
  }

  lemma {:induction false} JoinHoldsPart(parts: seq<string>, sep: char, i: nat)
    requires |parts| >= 1 && i < |parts|
    ensures forall c :: c in parts[i] ==> c in Join(parts, sep)
    decreases |parts|
  {
    if i > 0 {
      JoinHoldsPart(parts[1..], sep, i - 1);
    }
  }

  /** `!process.env[key]`: the variable is missing or empty. */
  predicate Unset(env: map<string, string>, key: string)
  {
    key !in env || env[key] == []
  }

  predicate Configured(env: map<string, string>)
  {
    !Unset(env, URL_VAR) && !Unset(env, KEY_VAR)
  }

  /** Every line parsed. */
  function ParseLines(lines: seq<string>): (r: seq<Option<Binding>>)
  {
    if lines == [] then [] else ParseLines(lines[..|lines| - 1]) + [ParseLine(lines[|lines| - 1])]
  }

  function Assign(env: map<string, string>, m: Option<Binding>): map<string, string>
  {
    match m
    case None => env
    case Some(b) => if Unset(env, b.key) then env[b.key := b.value] else env
  }

  /** The environment after the parsed lines have been applied in order. */
  function ApplyAll(env: map<string, string>, bindings: seq<Option<Binding>>): map<string, string>
  {
    if bindings == [] then env else Assign(ApplyAll(env, bindings[..|bindings| - 1]), bindings[|bindings| - 1])
  }

  lemma ApplyNextLine(env: map<string, string>, lines: seq<string>, i: nat)
    requires i < |lines|
    ensures ApplyAll(env, ParseLines(lines[..i + 1])) == Assign(ApplyAll(env, ParseLines(lines[..i])), ParseLine(lines[i]))
  {
    ParseLinesSnoc(lines, i);
    ApplyAllSnoc(env, ParseLines(lines[..i]), ParseLine(lines[i]));
  }

  lemma ParseLinesSnoc(lines: seq<string>, i: nat)
    requires i < |lines|
    ensures ParseLines(lines[..i + 1]) == ParseLines(lines[..i]) + [ParseLine(lines[i])]
  {
    assert lines[..i + 1][..i] == lines[..i];
  }

  lemma ApplyAllSnoc(env: map<string, string>, bindings: seq<Option<Binding>>, b: Option<Binding>)
    ensures ApplyAll(env, bindings + [b]) == Assign(ApplyAll(env, bindings), b)
  {
    assert (bindings + [b])[..|bindings|] == bindings;
  }

  /** A variable that has a value keeps it, and no variable disappears. */
  lemma {:induction false} NeverOverwrites(env: map<string, string>, bindings: seq<Option<Binding>>)
    ensures forall k :: k in env ==> k in ApplyAll(env, bindings)
    ensures forall k :: k in env && env[k] != [] ==> ApplyAll(env, bindings)[k] == env[k]
    decreases |bindings|
  {
    if bindings != [] {
      NeverOverwrites(env, bindings[..|bindings| - 1]);
    }
  }

  /** Every new variable was named by some line. */
  lemma {:induction false} OnlyNamedKeys(env: map<string, string>, bindings: seq<Option<Binding>>)
    ensures forall k :: k in ApplyAll(env, bindings) && k !in env ==>
      exists i :: 0 <= i < |bindings| && bindings[i].Some? && bindings[i].value.key == k
    decreases |bindings|
  {
    if bindings != [] {
      var p := bindings[..|bindings| - 1];
      OnlyNamedKeys(env, p);
      forall k | k in ApplyAll(env, bindings) && k !in env
        ensures exists i :: 0 <= i < |bindings| && bindings[i].Some? && bindings[i].value.key == k
      {
        if k in ApplyAll(env, p) {
          var i :| 0 <= i < |p| && p[i].Some? && p[i].value.key == k;
          assert bindings[i] == p[i];
        } else {
          assert bindings[|bindings| - 1].Some?;
        }
      }
    }
  }

  /** For a variable that was unset, the first line giving it a non-empty
      value decides it: later lines cannot change it. */
  lemma {:induction false} FirstValueWins(env: map<string, string>, bindings: seq<Option<Binding>>, i: nat, k: string, v: string)
    requires Unset(env, k) && v != []
    requires i < |bindings| && bindings[i] == Some(Binding(k, v))
    requires forall j :: 0 <= j < i && bindings[j].Some? && bindings[j].value.key == k ==> bindings[j].value.value == []
    ensures k in ApplyAll(env, bindings) && ApplyAll(env, bindings)[k] == v
    decreases |bindings|
  {
    var p := bindings[..|bindings| - 1];
    if i == |bindings| - 1 {
      assert forall j :: 0 <= j < |p| ==> p[j] == bindings[j];
      UnsetStaysUnset(env, p, k);
    } else {
      assert p[i] == bindings[i];
      assert forall j :: 0 <= j < i ==> p[j] == bindings[j];
      FirstValueWins(env, p, i, k, v);
    }
  }

  lemma {:induction false} UnsetStaysUnset(env: map<string, string>, bindings: seq<Option<Binding>>, k: string)
    requires Unset(env, k)
    requires forall j :: 0 <= j < |bindings| && bindings[j].Some? && bindings[j].value.key == k ==> bindings[j].value.value == []
    ensures Unset(ApplyAll(env, bindings), k)
    decreases |bindings|
  {
    if bindings != [] {
      var p := bindings[..|bindings| - 1];
      assert forall j :: 0 <= j < |p| ==> p[j] == bindings[j];
      UnsetStaysUnset(env, p, k);
    }
  }

  /** `process.env` as the loader sees it. */
  class ProcessEnv {
    var vars: map<string, string>

    constructor (initial: map<string, string>)
      ensures vars == initial
    {
      vars := initial;
    }

    /** `loadEnvIfNeeded`, given the `.env` file's content when it exists. */
    method LoadEnvIfNeeded(envFile: Option<string>)
      modifies this
      ensures Configured(old(vars)) || envFile.None? ==> vars == old(vars)
      ensures !Configured(old(vars)) && envFile.Some? ==> vars == ApplyAll(old(vars), ParseLines(Lines(envFile.value)))
    {
      if Configured(vars) || envFile.None? {
        return;
      }
      var lines := Lines(envFile.value);
      AssignLines(lines);
    }

    /** The `forEach` over the lines: each line that matches assigns its value
        when the variable is unset. */
    method AssignLines(lines: seq<string>)
      modifies this
      ensures vars == ApplyAll(old(vars), ParseLines(lines))
    {
      ghost var start := vars;
      assert lines[..0] == [];
      for i := 0 to |lines|
        invariant vars == ApplyAll(start, ParseLines(lines[..i]))
      {
        var m := ParseLine(lines[i]);
        ApplyNextLine(start, lines, i);
        if m.Some? && Unset(vars, m.value.key) {
          vars := vars[m.value.key := m.value.value];
        }
      }
      assert lines[..|lines|] == lines;
    }
  }
}
