/** The Secret manifest kept in the SOPS file, the line reader that takes the password back out, and generated passwords. */
module SecretYaml {
  import opened Strings

  predicate IsQuote(c: char) { c == '"' || c == '\'' }

  /** Doubling of single quotes, shared by YAML single-quoted scalars and SQL literals. */
  function Doubled(s: string): string { ReplaceChar(s, '\'', "''") }

  function HeadLines(name: string, namespace: string, username: string): seq<string> {
    ["apiVersion: v1", "kind: Secret", "metadata:", "  name: " + name, "  namespace: " + namespace,
     "type: kubernetes.io/basic-auth", "stringData:", "  username: '" + Doubled(username) + "'"]
  }

  const KEY := "password:"

  const INDENT := "  "

  function PasswordLine(quote: string, scalar: string): string {
    INDENT + KEY + " " + quote + scalar + quote
  }

  /** buildSecretYAML: the template's lines, the last one ended by a newline too. */
  function BuildSecretYaml(name: string, namespace: string, username: string, password: string): string {
    Join(HeadLines(name, namespace, username) + [PasswordLine("'", Doubled(password)), ""], '\n')
  }

  /** The value a line gives to the password key, if it is such a line with a non-empty value. */
  function LineValue(line: string): Option<string> {
    var l := TrimSpace(line);
    if !(KEY <= l) then None
    else
      var v := Trim(TrimSpace(l[|KEY|..]), IsQuote);
      if v == "" then None else Some(v)
  }

  function FirstValue(lines: seq<string>): Option<string> {
    if lines == [] then None
    else if LineValue(lines[0]).Some? then LineValue(lines[0])
    else FirstValue(lines[1..])
  }

  function ParsedPassword(text: string): Option<string> { FirstValue(Split(text, '\n')) }

  /** parseSecretPassword, line by line. */
  method ParseSecretPassword(text: string) returns (r: Option<string>)
    ensures r == ParsedPassword(text)
  {
    var lines := Split(text, '\n');
    for i := 0 to |lines|
      invariant FirstValue(lines[i..]) == FirstValue(lines)
    {
      assert lines[i..][1..] == lines[i + 1..];
      var l := TrimSpace(lines[i]);
      if KEY <= l {
        var v := Trim(TrimSpace(l[|KEY|..]), IsQuote);
        if v != "" {
          return Some(v);
        }
      }
    }
    return None;
  }

  /** The exact domain on which building and parsing undo each other. */
  predicate RoundTrips(password: string) {
    && password != ""
    && Free(password, '\n')
    && Free(password, '\'')
    && password[0] != '"'
    && password[|password| - 1] != '"'
  }

  // ----- the lines before the password

  lemma {:induction false} TrimLeftHead(line: string, c: char, k: nat)
    requires k < |line| && line[k] == c && !IsSpace(c)
    requires forall i :: 0 <= i < k ==> IsSpace(line[i])
    ensures TrimLeft(line, IsSpace) == line[k..]
  {
    assert line == line[..k] + line[k..];
    TrimLeftPast(line[..k], line[k..], IsSpace);
  }

  lemma TrimmedHead(line: string, k: nat)
    requires k < |line| && !IsSpace(line[k])
    requires forall i :: 0 <= i < k ==> IsSpace(line[i])
    ensures TrimSpace(line) != "" && TrimSpace(line)[0] == line[k]
  {
    TrimLeftHead(line, line[k], k);
    var l := line[k..];
    TrimRightSplits(l, IsSpace);
    var r := TrimRight(l, IsSpace);
    assert l[0..] == l && !AllCut(l, IsSpace);
  }

  lemma SkippedLine(line: string, k: nat)
    requires k < |line| && !IsSpace(line[k]) && line[k] != 'p'
    requires forall i :: 0 <= i < k ==> IsSpace(line[i])
    ensures LineValue(line) == None
  {
    TrimmedHead(line, k);
  }

  lemma {:induction false} FirstValueSkips(a: seq<string>, b: seq<string>)
    requires forall i :: 0 <= i < |a| ==> LineValue(a[i]) == None
    ensures FirstValue(a + b) == FirstValue(b)
  {
    if a == [] {
      assert a + b == b;
    } else {
      FirstValueSkips(a[1..], b);
      assert (a + b)[0] == a[0] && (a + b)[1..] == a[1..] + b;
    }
  }

  lemma HeadLinesAreSkipped(name: string, namespace: string, username: string)
    ensures forall i :: 0 <= i < 8 ==> LineValue(HeadLines(name, namespace, username)[i]) == None
  {
    var h := HeadLines(name, namespace, username);
    forall i | 0 <= i < 8 ensures LineValue(h[i]) == None {
      SkippedLine(h[i], if i == 3 || i == 4 || i == 7 then 2 else 0);
    }
  }

  lemma {:induction false} SplitLines(lines: seq<string>, rest: string)
    requires forall i :: 0 <= i < |lines| ==> Free(lines[i], '\n')
    ensures lines != [] ==> Split(Join(lines + [rest], '\n'), '\n') == lines + Split(rest, '\n')
  {
    if lines != [] {
      SplitOfJoin(lines, '\n');
      JoinAppend(lines, [rest], '\n');
      SplitAppend(Join(lines, '\n'), rest, '\n');
    }
  }

  lemma {:induction false} DoubledIsFree(s: string, c: char)
    requires c != '\''
    ensures Free(Doubled(s), c) <==> Free(s, c)
  {
    if s != "" {
      DoubledIsFree(s[1..], c);
      var h := if s[0] == '\'' then "''" else [s[0]];
      assert Doubled(s) == h + Doubled(s[1..]);
      assert Free(s, c) <==> s[0] != c && Free(s[1..], c) by {
        assert s == [s[0]] + s[1..];
        FreeAppend([s[0]], s[1..], c);
      }
      FreeAppend(h, Doubled(s[1..]), c);
    }
  }

  lemma FreeAppend(a: string, b: string, c: char)
    ensures Free(a + b, c) <==> Free(a, c) && Free(b, c)
  {
    assert forall i :: 0 <= i < |b| ==> (a + b)[|a| + i] == b[i];
    assert forall i :: 0 <= i < |a| ==> (a + b)[i] == a[i];
  }

  lemma {:induction false} DoubledGrows(s: string)
    ensures |Doubled(s)| >= |s|
    ensures |Doubled(s)| == |s| <==> Free(s, '\'')
    ensures Free(s, '\'') ==> Doubled(s) == s
    ensures s != "" ==> Doubled(s)[0] == s[0] && Doubled(s)[|Doubled(s)| - 1] == s[|s| - 1]
  {
    if s != "" {
      DoubledGrows(s[1..]);
      assert s == [s[0]] + s[1..];
      FreeAppend([s[0]], s[1..], '\'');
    }
  }

  lemma HeadLinesAreFree(name: string, namespace: string, username: string)
    requires Free(name, '\n') && Free(namespace, '\n') && Free(username, '\n')
    ensures forall i :: 0 <= i < 8 ==> Free(HeadLines(name, namespace, username)[i], '\n')
  {
    DoubledIsFree(username, '\n');
    var h := HeadLines(name, namespace, username);
    assert Free(h[0], '\n') && Free(h[1], '\n') && Free(h[2], '\n');
    assert Free(h[3], '\n') && Free(h[4], '\n');
    assert Free(h[5], '\n') && Free(h[6], '\n') && Free(h[7], '\n');
  }

  /** What the reader sees of a built text is the password line onwards. */
  lemma ParsedFromPasswordLine(name: string, namespace: string, username: string, line: string)
    requires Free(name, '\n') && Free(namespace, '\n') && Free(username, '\n')
    ensures var text := Join(HeadLines(name, namespace, username) + [line, ""], '\n');
            ParsedPassword(text) == FirstValue(Split(line, '\n') + [""])
  {
    var h := HeadLines(name, namespace, username);
    HeadLinesAreFree(name, namespace, username);
    HeadLinesAreSkipped(name, namespace, username);
    var rest := line + ['\n'] + "";
    assert Join([line, ""], '\n') == rest by {
      assert [line, ""][1..] == [""];
    }
    JoinAppend(h, [line, ""], '\n');
    JoinAppend(h, [rest], '\n');
    SplitLines(h, rest);
    SplitAppend(line, "", '\n');
    FirstValueSkips(h, Split(rest, '\n'));
  }

  /** The whole text, line by line: type, name and namespace, and the user beside the password. */
  lemma BuiltLines(name: string, namespace: string, username: string, password: string)
    requires Free(name, '\n') && Free(namespace, '\n') && Free(username, '\n') && Free(password, '\n')
    ensures Split(BuildSecretYaml(name, namespace, username, password), '\n')
         == ["apiVersion: v1", "kind: Secret", "metadata:", "  name: " + name, "  namespace: " + namespace,
             "type: kubernetes.io/basic-auth", "stringData:", "  username: '" + Doubled(username) + "'",
             "  password: '" + Doubled(password) + "'", ""]
  {
    var h, line := HeadLines(name, namespace, username), PasswordLine("'", Doubled(password));
    HeadLinesAreFree(name, namespace, username);
    DoubledIsFree(password, '\n');
    FreeAppend("  password: '", Doubled(password), '\n');
    FreeAppend("  password: '" + Doubled(password), "'", '\n');
    assert line == "  password: '" + Doubled(password) + "'";
    assert Free("  password: '", '\n') && Free("'", '\n') && Free(line, '\n');
    assert h + [line, ""] == (h + [line]) + [""];
    SplitLines(h + [line], "");
  }

  // ----- the password line

  /** The value read from a password line is its scalar without quotes at the ends. */
  lemma PasswordLineValue(quote: string, scalar: string)
    requires quote == "" || quote == "'" || quote == "\""
    requires scalar != "" && !IsQuote(scalar[0]) && !IsQuote(scalar[|scalar| - 1])
    requires quote == "" ==> !IsSpace(scalar[0]) && !IsSpace(scalar[|scalar| - 1])
    ensures LineValue(PasswordLine(quote, scalar)) == Some(scalar)
  {
    var body := quote + scalar + quote;
    var m := KEY + " " + body;
    assert PasswordLine(quote, scalar) == INDENT + m + "";
    assert !IsSpace(m[0]) && !IsSpace(m[|m| - 1]);
    TrimBetween(INDENT, m, "", IsSpace);
    assert m[|KEY|..] == " " + body + "";
    assert !IsSpace(body[0]) && !IsSpace(body[|body| - 1]);
    TrimBetween(" ", body, "", IsSpace);
    TrimBetween(quote, scalar, quote, IsQuote);
  }

  lemma TrimIsPart(s: string, cut: char -> bool, c: char)
    requires Free(s, c)
    ensures Free(Trim(s, cut), c)
  {
    var l := TrimLeft(s, cut);
    TrimLeftSplits(s, cut);
    assert forall i :: 0 <= i < |l| ==> l[i] == s[|s| - |l| + i];
    TrimRightSplits(l, cut);
    assert forall i :: 0 <= i < |Trim(s, cut)| ==> Trim(s, cut)[i] == l[i];
  }

  lemma TrimmedEnds(s: string, cut: char -> bool)
    ensures Trim(s, cut) != "" ==> !cut(Trim(s, cut)[0]) && !cut(Trim(s, cut)[|Trim(s, cut)| - 1])
  {
    TrimLeftSplits(s, cut);
    TrimRightSplits(TrimLeft(s, cut), cut);
  }

  lemma LineValueShape(line: string)
    requires Free(line, '\n') && LineValue(line).Some?
    ensures var v := LineValue(line).value;
            v != "" && Free(v, '\n') && !IsQuote(v[0]) && !IsQuote(v[|v| - 1])
  {
    TrimIsPart(line, IsSpace, '\n');
    var l := TrimSpace(line);
    assert Free(l[|KEY|..], '\n');
    TrimIsPart(l[|KEY|..], IsSpace, '\n');
    TrimIsPart(TrimSpace(l[|KEY|..]), IsQuote, '\n');
    TrimmedEnds(TrimSpace(l[|KEY|..]), IsQuote);
  }

  lemma {:induction false} FirstValueShape(lines: seq<string>)
    requires forall i :: 0 <= i < |lines| ==> Free(lines[i], '\n')
    ensures FirstValue(lines).Some? ==>
      var v := FirstValue(lines).value;
      v != "" && Free(v, '\n') && !IsQuote(v[0]) && !IsQuote(v[|v| - 1])
  {
    if lines != [] {
      if LineValue(lines[0]).Some? {
        LineValueShape(lines[0]);
      } else {
        FirstValueShape(lines[1..]);
      }
    }
  }

  /** No text at all is read as a password that is empty, spans lines or has quotes at its ends. */
  lemma ParsedShape(text: string)
    ensures ParsedPassword(text).Some? ==>
      var v := ParsedPassword(text).value;
      v != "" && Free(v, '\n') && !IsQuote(v[0]) && !IsQuote(v[|v| - 1])
  {
    SplitIsFree(text, '\n');
    FirstValueShape(Split(text, '\n'));
  }

  /** For every password: it is read back from the built text exactly when it is in the domain. */
  lemma PasswordRoundTrip(name: string, namespace: string, username: string, password: string)
    requires Free(name, '\n') && Free(namespace, '\n') && Free(username, '\n')
    ensures ParsedPassword(BuildSecretYaml(name, namespace, username, password)) == Some(password)
       <==> RoundTrips(password)
  {
    var line := PasswordLine("'", Doubled(password));
    var text := BuildSecretYaml(name, namespace, username, password);
    ParsedShape(text);
    if ParsedPassword(text) == Some(password) || RoundTrips(password) {
      assert Free(line, '\n') by {
        DoubledIsFree(password, '\n');
        FreeAppend(INDENT + KEY + " " + "'", Doubled(password), '\n');
        FreeAppend(INDENT + KEY + " " + "'" + Doubled(password), "'", '\n');
      }
      ParsedFromPasswordLine(name, namespace, username, line);
      SplitOfFree(line, '\n');
      DoubledGrows(password);
      PasswordLineValue("'", Doubled(password));
      assert ([line] + [""])[0] == line;
    }
  }

  /**
   The text the encryption tool hands back may quote the scalar in another way; any reading of the same key is
   found as long as no earlier line spells it.
   */
  lemma RequotedPassword(before: seq<string>, quote: string, password: string, after: seq<string>)
    requires forall i :: 0 <= i < |before| ==> LineValue(before[i]) == None
    requires quote == "" || quote == "'" || quote == "\""
    requires Generated(password)
    ensures FirstValue(before + [PasswordLine(quote, password)] + after) == Some(password)
  {
    GeneratedIsSafe(password);
    assert Sextet(password[0]).Some? && Sextet(password[|password| - 1]).Some?;
    PasswordLineValue(quote, password);
    assert before + [PasswordLine(quote, password)] + after == before + ([PasswordLine(quote, password)] + after);
    FirstValueSkips(before, [PasswordLine(quote, password)] + after);
  }

  // ----- generated passwords

  type Byte = b: int | 0 <= b < 256

  /** The alphabet of RFC 4648 section 5. */
  function SextetChar(d: nat): char
    requires d < 64
  {
    if d < 26 then 'A' + d as char
    else if d < 52 then 'a' + (d - 26) as char
    else if d < 62 then '0' + (d - 52) as char
    else if d == 62 then '-'
    else '_'
  }

  lemma Alphabet(d: nat)
    requires d < 64
    ensures d < 26 ==> SextetChar(d) == "ABCDEFGHIJKLMNOPQRSTUVWXYZ"[d]
    ensures 26 <= d < 52 ==> SextetChar(d) == "abcdefghijklmnopqrstuvwxyz"[d - 26]
    ensures 52 <= d ==> SextetChar(d) == "0123456789-_"[d - 52]
  {
  }

  function Sextet(c: char): Option<nat> {
    if 'A' <= c <= 'Z' then Some(c as int - 'A' as int)
    else if 'a' <= c <= 'z' then Some(c as int - 'a' as int + 26)
    else if '0' <= c <= '9' then Some(c as int - '0' as int + 52)
    else if c == '-' then Some(62)
    else if c == '_' then Some(63)
    else None
  }

  function EncodeTriple(a: Byte, b: Byte, c: Byte): (s: string)
    ensures |s| == 4
  {
    [SextetChar(a / 4), SextetChar(a % 4 * 16 + b / 16), SextetChar(b % 16 * 4 + c / 64), SextetChar(c % 64)]
  }

  /** base64.RawURLEncoding on a whole number of three-byte groups. */
  function Encode(bytes: seq<Byte>): (s: string)
    requires |bytes| % 3 == 0
    ensures |s| == |bytes| / 3 * 4
  {
    if bytes == [] then "" else EncodeTriple(bytes[0], bytes[1], bytes[2]) + Encode(bytes[3..])
  }

  /** Two vectors: "foo" from section 10 of RFC 4648, and one with the two letters of the URL-safe alphabet. */
  lemma EncodingVectors()
    ensures Encode([0x66, 0x6f, 0x6f]) == "Zm9v" && Encode([0xfb, 0xff, 0xbf]) == "-_-_"
  {
    var a: seq<Byte>, b: seq<Byte> := [0x66, 0x6f, 0x6f], [0xfb, 0xff, 0xbf];
    assert a[3..] == [] && b[3..] == [];
  }

  /** generatePassword: 24 random bytes. */
  function GeneratePassword(entropy: seq<Byte>): (pw: string)
    requires |entropy| == 24
    ensures |pw| == 32
  {
    Encode(entropy)
  }

  predicate Generated(pw: string) {
    |pw| == 32 && forall i :: 0 <= i < |pw| ==> Sextet(pw[i]).Some?
  }

  lemma {:induction false} EncodedChars(bytes: seq<Byte>)
    requires |bytes| % 3 == 0
    ensures forall i :: 0 <= i < |Encode(bytes)| ==> Sextet(Encode(bytes)[i]).Some?
  {
    if bytes != [] {
      EncodedChars(bytes[3..]);
    }
  }

  lemma GeneratedPassword(entropy: seq<Byte>)
    requires |entropy| == 24
    ensures Generated(GeneratePassword(entropy))
  {
    EncodedChars(entropy);
  }

  lemma GeneratedIsSafe(pw: string)
    requires Generated(pw)
    ensures RoundTrips(pw) && Free(pw, '$') && Free(pw, '\\')
  {
    forall i | 0 <= i < |pw| ensures pw[i] != '\n' && pw[i] != '\'' && pw[i] != '"' && pw[i] != '$' && pw[i] != '\\' {
      assert Sextet(pw[i]).Some?;
    }
  }

  lemma SextetsDiffer(d: nat)
    requires d < 64
    ensures Sextet(SextetChar(d)) == Some(d)
  {
  }

  lemma TriplesDiffer(a: Byte, b: Byte, c: Byte, x: Byte, y: Byte, z: Byte)
    requires EncodeTriple(a, b, c) == EncodeTriple(x, y, z)
    ensures a == x && b == y && c == z
  {
    var s, t := EncodeTriple(a, b, c), EncodeTriple(x, y, z);
    assert s[0] == t[0] && s[1] == t[1] && s[2] == t[2] && s[3] == t[3];
    SextetsDiffer(a / 4);
    SextetsDiffer(x / 4);
    SextetsDiffer(a % 4 * 16 + b / 16);
    SextetsDiffer(x % 4 * 16 + y / 16);
    SextetsDiffer(b % 16 * 4 + c / 64);
    SextetsDiffer(y % 16 * 4 + z / 64);
    SextetsDiffer(c % 64);
    SextetsDiffer(z % 64);
  }

  /** No entropy is lost: different random bytes give different passwords. */
  lemma {:induction false} EncodingIsInjective(p: seq<Byte>, q: seq<Byte>)
    requires |p| % 3 == 0 && |q| % 3 == 0
    ensures Encode(p) == Encode(q) <==> p == q
  {
    if Encode(p) == Encode(q) && p != [] {
      assert q != [];
      assert EncodeTriple(p[0], p[1], p[2]) == Encode(p)[..4] == Encode(q)[..4] == EncodeTriple(q[0], q[1], q[2]);
      TriplesDiffer(p[0], p[1], p[2], q[0], q[1], q[2]);
      assert Encode(p[3..]) == Encode(p)[4..] == Encode(q)[4..] == Encode(q[3..]);
      EncodingIsInjective(p[3..], q[3..]);
      assert p == [p[0], p[1], p[2]] + p[3..];
      assert q == [q[0], q[1], q[2]] + q[3..];
    }
  }
}
