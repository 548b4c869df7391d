/** Connection strings handed to people, and the readers (libpq, a POSIX shell) that must take them apart again. */
module ConnStrings {
  import opened Strings

  datatype Inputs = Inputs(host: string, port: int, database: string, user: string, password: string)

  function Natural(n: nat): (s: string)
    ensures s != "" && forall i :: 0 <= i < |s| ==> '0' <= s[i] <= '9'
  {
    if n < 10 then ['0' + n as char] else Natural(n / 10) + ['0' + (n % 10) as char]
  }

  /** fmt's %d. */
  function Decimal(n: int): string {
    if n < 0 then "-" + Natural(-n) else Natural(n)
  }

  /** The number a run of digits denotes. */
  function DigitsValue(s: string): nat {
    if s == "" then 0 else 10 * DigitsValue(s[..|s| - 1]) + DigitValue(s[|s| - 1])
  }

  function DigitValue(c: char): nat {
    if c < '0' || c > '9' then 0 else c as int - '0' as int
  }

  function NumberOf(s: string): int {
    if s != "" && s[0] == '-' then 0 - DigitsValue(s[1..]) else DigitsValue(s)
  }

  lemma {:induction false} NaturalDenotes(n: nat)
    ensures DigitsValue(Natural(n)) == n
    ensures Natural(n)[0] == '0' ==> n == 0 && |Natural(n)| == 1
  {
    var s := Natural(n);
    if n >= 10 {
      NaturalDenotes(n / 10);
      assert s[..|s| - 1] == Natural(n / 10);
    } else {
      assert s[..0] == "";
    }
  }

  /** A port is written so that its digits denote it. */
  lemma DecimalDenotes(n: int)
    ensures NumberOf(Decimal(n)) == n
  {
    if n < 0 {
      NaturalDenotes(-n);
      assert Decimal(n)[1..] == Natural(-n);
    } else {
      NaturalDenotes(n);
    }
  }

  // ----- libpq

  predicate NeedsQuotes(c: char) { c == ' ' || c == '\'' || c == '\\' }

  function Escaped(s: string): string {
    if s == "" then ""
    else (if s[0] == '\\' || s[0] == '\'' then ['\\', s[0]] else [s[0]]) + Escaped(s[1..])
  }

  /** libpqEscape. */
  function LibpqEscape(pw: string): string {
    if AllCut(pw, c => !NeedsQuotes(c)) then pw else "'" + Escaped(pw) + "'"
  }

  function Field(key: string, value: string): string { key + "=" + value }

  /** renderLibpq. */
  function RenderLibpq(x: Inputs): string {
    Join([Field("host", x.host), Field("port", Decimal(x.port)), Field("dbname", x.database),
          Field("user", x.user), Field("password", LibpqEscape(x.password))], ' ')
  }

  datatype Setting = Setting(key: string, value: string)

  datatype Settings = Settings(list: seq<Setting>) | Malformed

  function Cons(x: Setting, rest: Settings): Settings {
    match rest case Settings(list) => Settings([x] + list) case Malformed => Malformed
  }

  /** An unquoted value runs to the next white space; a backslash keeps the character after it. */
  function Unquoted(s: string): (r: (string, string))
    ensures |r.1| <= |s|
  {
    if s == "" then ("", "")
    else if IsSpace(s[0]) then ("", s[1..])
    else if s[0] == '\\' then
      if |s| == 1 then ("", "") else var (v, rest) := Unquoted(s[2..]); ([s[1]] + v, rest)
    else var (v, rest) := Unquoted(s[1..]); ([s[0]] + v, rest)
  }

  /** A quoted value runs to the closing quote; without one the string is malformed. */
  function Quoted(s: string): (r: Option<(string, string)>)
    ensures r.Some? ==> |r.value.1| <= |s|
  {
    if s == "" then None
    else if s[0] == '\'' then Some(("", s[1..]))
    else
      var (c, tail) := if s[0] == '\\' && |s| > 1 then (s[1], s[2..]) else (s[0], s[1..]);
      var r := Quoted(tail);
      if r.None? then None else Some(([c] + r.value.0, r.value.1))
  }

  function Keyword(s: string): (r: Option<(string, string)>)
    ensures r.Some? ==> |r.value.1| < |s|
  {
    if s == "" then None
    else if s[0] == '=' then Some(("", s[1..]))
    else if IsSpace(s[0]) then
      var t := TrimLeft(s, IsSpace);
      TrimLeftSplits(s, IsSpace);
      if t != "" && t[0] == '=' then Some(("", t[1..])) else None
    else
      var r := Keyword(s[1..]);
      if r.None? then None else Some(([s[0]] + r.value.0, r.value.1))
  }

  /** The conninfo rules of the PostgreSQL 16 documentation, section 34.1.1.1. */
  function ParseConninfo(s: string): Settings
    decreases |s|
  {
    TrimLeftSplits(s, IsSpace);
    var t := TrimLeft(s, IsSpace);
    if t == "" then Settings([])
    else
      var k := Keyword(t);
      if k.None? then Malformed
      else
        TrimLeftSplits(k.value.1, IsSpace);
        var u := TrimLeft(k.value.1, IsSpace);
        if u != "" && u[0] == '\'' then
          var v := Quoted(u[1..]);
          if v.None? then Malformed else Cons(Setting(k.value.0, v.value.0), ParseConninfo(v.value.1))
        else
          var (v, rest) := Unquoted(u);
          Cons(Setting(k.value.0, v), ParseConninfo(rest))
  }

  predicate PlainChar(c: char) { !IsSpace(c) && c != '\'' && c != '\\' }

  predicate PlainValue(s: string) { s != "" && AllCut(s, PlainChar) }

  predicate NoSpace(s: string) { forall i :: 0 <= i < |s| ==> !IsSpace(s[i]) }

  lemma {:induction false} KeywordReads(key: string, rest: string)
    requires NoSpace(key) && Free(key, '=')
    ensures Keyword(key + "=" + rest) == Some((key, rest))
  {
    if key == "" {
      assert (key + "=" + rest)[1..] == rest;
    } else {
      KeywordReads(key[1..], rest);
      assert (key + "=" + rest)[0] == key[0] && !IsSpace(key[0]) && key[0] != '=';
      assert (key + "=" + rest)[1..] == key[1..] + "=" + rest;
      assert key == [key[0]] + key[1..];
    }
  }

  lemma {:induction false} UnquotedReads(v: string, rest: string)
    requires AllCut(v, PlainChar)
    requires rest == "" || IsSpace(rest[0])
    ensures Unquoted(v + rest) == (v, if rest == "" then "" else rest[1..])
  {
    if v == "" {
      assert v + rest == rest;
    } else {
      UnquotedReads(v[1..], rest);
      assert PlainChar(v[0]) && v == [v[0]] + v[1..];
      assert (v + rest)[0] == v[0] && (v + rest)[1..] == v[1..] + rest;
    }
  }

  lemma {:induction false} QuotedReads(v: string, rest: string)
    ensures Quoted(Escaped(v) + "'" + rest) == Some((v, rest))
  {
    var s := Escaped(v) + "'" + rest;
    if v == "" {
      assert s[1..] == rest;
    } else {
      QuotedReads(v[1..], rest);
      var tail := Escaped(v[1..]) + "'" + rest;
      if v[0] == '\\' || v[0] == '\'' {
        assert s == ['\\', v[0]] + tail;
        assert s[2..] == tail;
      } else {
        assert s == [v[0]] + tail;
        assert s[1..] == tail;
      }
      assert v == [v[0]] + v[1..];
    }
  }

  /** One plain setting is read back and leaves the rest to be read. */
  lemma PlainSetting(key: string, v: string, rest: string)
    requires key != "" && NoSpace(key) && Free(key, '=') && PlainValue(v)
    ensures ParseConninfo(Field(key, v) + [' '] + rest) == Cons(Setting(key, v), ParseConninfo(rest))
  {
    var s := Field(key, v) + [' '] + rest;
    var after := v + ([' '] + rest);
    assert s == key + "=" + after;
    assert TrimLeft(s, IsSpace) == s;
    KeywordReads(key, after);
    assert TrimLeft(after, IsSpace) == after;
    UnquotedReads(v, [' '] + rest);
    assert ([' '] + rest)[1..] == rest;
  }

  lemma {:induction false} UnquotedHasNoSpace(s: string)
    requires Free(s, '\\')
    ensures NoSpace(Unquoted(s).0)
  {
    if s != "" && !IsSpace(s[0]) {
      UnquotedHasNoSpace(s[1..]);
    }
  }

  /** The password comes back exactly when it was quoted or holds no white space at all. */
  predicate LibpqSafe(pw: string) {
    !AllCut(pw, c => !NeedsQuotes(c)) || NoSpace(pw)
  }

  lemma QuotedLastSetting(pw: string)
    requires !AllCut(pw, c => !NeedsQuotes(c))
    ensures ParseConninfo(Field("password", LibpqEscape(pw))) == Settings([Setting("password", pw)])
  {
    var e := LibpqEscape(pw);
    assert e == "'" + (Escaped(pw) + "'" + "");
    assert e[1..] == Escaped(pw) + "'" + "";
    FieldStartsPlain("password", e);
    KeywordReads("password", e);
    QuotedReads(pw, "");
    assert TrimLeft(e, IsSpace) == e;
    QuotedSetting(Field("password", e), "password", e, pw, "");
    OneSetting(Setting("password", pw));
  }

  /** One step of the parser, over a quoted value. */
  lemma QuotedSetting(s: string, key: string, value: string, v: string, rest: string)
    requires s != "" && TrimLeft(s, IsSpace) == s && Keyword(s) == Some((key, value))
    requires TrimLeft(value, IsSpace) == value && value != "" && value[0] == '\'' && Quoted(value[1..]) == Some((v, rest))
    ensures ParseConninfo(s) == Cons(Setting(key, v), ParseConninfo(rest))
  {
  }

  lemma OneSetting(x: Setting)
    ensures Cons(x, ParseConninfo("")) == Settings([x])
  {
    assert [x] + [] == [x];
  }

  lemma FieldStartsPlain(key: string, v: string)
    requires key != "" && NoSpace(key)
    ensures TrimLeft(Field(key, v), IsSpace) == Field(key, v)
  {
    assert Field(key, v)[0] == key[0];
  }

  /** An unquoted last value is read up to its first white space, after any that leads it. */
  lemma PlainLastSetting(key: string, pw: string)
    requires key != "" && NoSpace(key) && Free(key, '=')
    requires AllCut(pw, c => !NeedsQuotes(c))
    ensures var u := TrimLeft(pw, IsSpace);
            ParseConninfo(Field(key, pw)) == Cons(Setting(key, Unquoted(u).0), ParseConninfo(Unquoted(u).1))
  {
    var u := TrimLeft(pw, IsSpace);
    TrimLeftSplits(pw, IsSpace);
    assert TrimLeft(Field(key, pw), IsSpace) == Field(key, pw);
    KeywordReads(key, pw);
    if u != "" {
      assert u[0] == pw[|pw| - |u|] && !NeedsQuotes(pw[|pw| - |u|]);
    }
  }

  lemma LastSetting(pw: string)
    ensures ParseConninfo(Field("password", LibpqEscape(pw))) == Settings([Setting("password", pw)]) <==> LibpqSafe(pw)
  {
    if !AllCut(pw, c => !NeedsQuotes(c)) {
      QuotedLastSetting(pw);
    } else {
      PlainLastSetting("password", pw);
      var u := TrimLeft(pw, IsSpace);
      TrimLeftSplits(pw, IsSpace);
      forall i | 0 <= i < |u| ensures u[i] != '\\' {
        assert u[i] == pw[|pw| - |u| + i] && !NeedsQuotes(pw[|pw| - |u| + i]);
      }
      UnquotedHasNoSpace(u);
      if NoSpace(pw) {
        forall i | 0 <= i < |pw| ensures PlainChar(pw[i]) {
          assert !NeedsQuotes(pw[i]);
        }
        assert u == pw;
        UnquotedReads(pw, "");
        assert pw + "" == pw;
        assert ParseConninfo("") == Settings([]);
      } else {
        FirstSettingDiffers(Setting("password", Unquoted(u).0), Setting("password", pw), ParseConninfo(Unquoted(u).1));
      }
    }
  }

  lemma FirstSettingDiffers(x: Setting, y: Setting, rest: Settings)
    requires x != y
    ensures Cons(x, rest) != Settings([y])
  {
    if rest.Settings? {
      assert ([x] + rest.list)[0] == x;
    }
  }

  lemma NaturalIsPlain(n: int)
    ensures PlainValue(Decimal(n))
  {
  }

  /** For plain host, database and user: all five fields are read back exactly when the password is libpq-safe. */
  lemma LibpqRoundTrip(x: Inputs)
    requires PlainValue(x.host) && PlainValue(x.database) && PlainValue(x.user)
    ensures ParseConninfo(RenderLibpq(x))
         == Settings([Setting("host", x.host), Setting("port", Decimal(x.port)), Setting("dbname", x.database),
                      Setting("user", x.user), Setting("password", x.password)])
       <==> LibpqSafe(x.password)
  {
    PlainSettingsRead(x);
    LastSetting(x.password);
    FourCons(Setting("host", x.host), Setting("port", Decimal(x.port)), Setting("dbname", x.database),
             Setting("user", x.user), Setting("password", x.password),
             ParseConninfo(Field("password", LibpqEscape(x.password))));
  }

  /** The four plain settings in front of the password. */
  lemma PlainSettingsRead(x: Inputs)
    requires PlainValue(x.host) && PlainValue(x.database) && PlainValue(x.user)
    ensures ParseConninfo(RenderLibpq(x))
         == Cons(Setting("host", x.host), Cons(Setting("port", Decimal(x.port)), Cons(Setting("dbname", x.database),
            Cons(Setting("user", x.user), ParseConninfo(Field("password", LibpqEscape(x.password)))))))
  {
    JoinFive(Field("host", x.host), Field("port", Decimal(x.port)), Field("dbname", x.database),
             Field("user", x.user), Field("password", LibpqEscape(x.password)));
    NaturalIsPlain(x.port);
    FourPlainSettings(x.host, Decimal(x.port), x.database, x.user, Field("password", LibpqEscape(x.password)));
  }

  lemma FourPlainSettings(host: string, port: string, db: string, user: string, rest: string)
    requires PlainValue(host) && PlainValue(port) && PlainValue(db) && PlainValue(user)
    ensures ParseConninfo(Field("host", host) + [' '] + (Field("port", port) + [' '] + (Field("dbname", db) + [' ']
                          + (Field("user", user) + [' '] + rest))))
         == Cons(Setting("host", host), Cons(Setting("port", port), Cons(Setting("dbname", db),
            Cons(Setting("user", user), ParseConninfo(rest)))))
  {
    var s4 := Field("user", user) + [' '] + rest;
    var s3 := Field("dbname", db) + [' '] + s4;
    var s2 := Field("port", port) + [' '] + s3;
    PlainSetting("host", host, s2);
    PlainSetting("port", port, s3);
    PlainSetting("dbname", db, s4);
    PlainSetting("user", user, rest);
  }

  lemma JoinFive(a: string, b: string, c: string, d: string, e: string)
    ensures Join([a, b, c, d, e], ' ') == a + [' '] + (b + [' '] + (c + [' '] + (d + [' '] + e)))
  {
    assert [d, e][1..] == [e];
    assert Join([d, e], ' ') == d + [' '] + e;
    assert [c, d, e][1..] == [d, e];
    assert Join([c, d, e], ' ') == c + [' '] + Join([d, e], ' ');
    assert [b, c, d, e][1..] == [c, d, e];
    assert Join([b, c, d, e], ' ') == b + [' '] + Join([c, d, e], ' ');
    assert [a, b, c, d, e][1..] == [b, c, d, e];
  }

  lemma FourCons(a: Setting, b: Setting, c: Setting, d: Setting, e: Setting, rest: Settings)
    ensures Cons(a, Cons(b, Cons(c, Cons(d, rest)))) == Settings([a, b, c, d, e]) <==> rest == Settings([e])
  {
    if rest.Settings? {
      var r := Cons(a, Cons(b, Cons(c, Cons(d, rest)))).list;
      assert r == [a, b, c, d] + rest.list;
      if r == [a, b, c, d, e] {
        assert rest.list == r[4..] == [e];
      }
    }
  }

  // ----- the shell

  /** shQuote. */
  function ShQuote(s: string): string { "'" + ReplaceChar(s, '\'', "'\\''") + "'" }

  /** renderPsql. */
  function RenderPsql(x: Inputs): string {
    "PGPASSWORD=" + (ShQuote(x.password) + (" psql -h " + (x.host + (" -p " + (Decimal(x.port)
    + (" -U " + (x.user + (" " + x.database))))))))
  }

  datatype Words = Words(list: seq<string>) | Rejected

  function Word(cur: Option<string>, rest: Words): Words {
    match rest
    case Rejected => Rejected
    case Words(list) => if cur.None? then rest else Words([cur.value] + list)
  }

  function Extend(cur: Option<string>, c: char): Option<string> {
    Some((if cur.None? then "" else cur.value) + [c])
  }

  /** Characters with a meaning of their own outside quotes; a text that uses them unquoted is rejected here. */
  predicate ShellSpecial(c: char) {
    c == '|' || c == '&' || c == ';' || c == '<' || c == '>' || c == '(' || c == ')' || c == '$' || c == '`'
    || c == '"' || c == '*' || c == '?' || c == '[' || c == '#' || c == '~' || c == '%' || c == '!' || c == '{'
    || c == '}' || c == '\n'
  }

  predicate Blank(c: char) { c == ' ' || c == '\t' }

  /** Token recognition and quote removal of POSIX XCU section 2.2, for single quotes and backslashes. */
  function Lex(s: string, cur: Option<string>): Words
    decreases |s|
  {
    if s == "" then Word(cur, Words([]))
    else if Blank(s[0]) then Word(cur, Lex(s[1..], None))
    else if s[0] == '\'' then InQuotes(s[1..], if cur.None? then "" else cur.value)
    else if s[0] == '\\' then
      if |s| == 1 || s[1] == '\n' then Rejected else Lex(s[2..], Extend(cur, s[1]))
    else if ShellSpecial(s[0]) then Rejected
    else Lex(s[1..], Extend(cur, s[0]))
  }

  function InQuotes(s: string, cur: string): Words
    decreases |s|
  {
    if s == "" then Rejected
    else if s[0] == '\'' then Lex(s[1..], Some(cur))
    else InQuotes(s[1..], cur + [s[0]])
  }

  predicate ShellPlainChar(c: char) { !Blank(c) && c != '\'' && c != '\\' && !ShellSpecial(c) }

  predicate ShellPlain(s: string) { s != "" && AllCut(s, ShellPlainChar) }

  /** Inside quotes the replaced text contributes exactly the original characters. */
  lemma {:induction false} QuotedTextReads(s: string, rest: string, cur: string)
    ensures InQuotes(ReplaceChar(s, '\'', "'\\''") + "'" + rest, cur) == Lex(rest, Some(cur + s))
    decreases |s|
  {
    var t := ReplaceChar(s, '\'', "'\\''") + "'" + rest;
    if s == "" {
      assert t[1..] == rest;
      assert cur + s == cur;
    } else {
      var tail := ReplaceChar(s[1..], '\'', "'\\''") + "'" + rest;
      QuotedTextReads(s[1..], rest, cur + [s[0]]);
      assert cur + [s[0]] + s[1..] == cur + s;
      if s[0] == '\'' {
        assert t == "'\\''" + tail;
        var next := cur + [s[0]];
        assert Extend(Some(cur), '\'') == Some(next);
        assert ("'" + tail)[1..] == tail;
        assert Lex("'" + tail, Some(next)) == InQuotes(tail, next);
        assert ("\\''" + tail)[2..] == "'" + tail;
        assert Lex("\\''" + tail, Some(cur)) == Lex("'" + tail, Some(next));
        assert t[1..] == "\\''" + tail;
      } else {
        assert t == [s[0]] + tail;
        assert t[1..] == tail;
      }
    }
  }

  lemma {:induction false} PlainTextReads(w: string, rest: string, cur: Option<string>)
    requires AllCut(w, ShellPlainChar) && (cur.Some? || w != "")
    ensures Lex(w + rest, cur) == Lex(rest, Some((if cur.None? then "" else cur.value) + w))
    decreases |w|
  {
    if w == "" {
      assert w + rest == rest && cur.value + w == cur.value;
    } else {
      var c := if cur.None? then "" else cur.value;
      assert (w + rest)[0] == w[0] && (w + rest)[1..] == w[1..] + rest;
      PlainTextReads(w[1..], rest, Extend(cur, w[0]));
      assert c + [w[0]] + w[1..] == c + w;
    }
  }

  /** A plain word and the blank after it. */
  lemma PlainWord(w: string, rest: string)
    requires ShellPlain(w)
    ensures Lex(w + [' '] + rest, None) == Word(Some(w), Lex(rest, None))
  {
    PlainTextReads(w, [' '] + rest, None);
    assert w + [' '] + rest == w + ([' '] + rest);
    assert "" + w == w;
    assert ([' '] + rest)[1..] == rest;
  }

  /** Plain words joined by blanks are read back as those words. */
  lemma {:induction false} PlainWordsRead(words: seq<string>)
    requires words != [] && forall i :: 0 <= i < |words| ==> ShellPlain(words[i])
    ensures Lex(Join(words, ' '), None) == Words(words)
  {
    if |words| == 1 {
      PlainTextReads(words[0], "", None);
      assert words[0] + "" == words[0] && "" + words[0] == words[0];
    } else {
      PlainWordsRead(words[1..]);
      PlainWord(words[0], Join(words[1..], ' '));
      assert words == [words[0]] + words[1..];
    }
  }

  lemma Spaced(gap: string, flag: string, value: string, rest: string)
    requires gap == [' '] + flag + [' ']
    ensures gap + (value + ([' '] + rest)) == [' '] + (flag + [' '] + (value + [' '] + rest))
  {
  }

  /** The part of the command after the password, word by word. */
  lemma CommandTail(host: string, port: string, user: string, db: string)
    ensures " psql -h " + (host + (" -p " + (port + (" -U " + (user + (" " + db))))))
         == [' '] + Join(["psql", "-h", host, "-p", port, "-U", user, db], ' ')
  {
    JoinedFront(user, [db]);
    JoinedFront("-U", [user, db]);
    JoinedFront(port, ["-U", user, db]);
    JoinedFront("-p", [port, "-U", user, db]);
    JoinedFront(host, ["-p", port, "-U", user, db]);
    JoinedFront("-h", [host, "-p", port, "-U", user, db]);
    JoinedFront("psql", ["-h", host, "-p", port, "-U", user, db]);
    var j3, j5 := Join(["-U", user, db], ' '), Join(["-p", port, "-U", user, db], ' ');
    Spaced(" -U ", "-U", user, db);
    assert " -U " + (user + (" " + db)) == [' '] + j3;
    Spaced(" -p ", "-p", port, j3);
    assert " -p " + (port + ([' '] + j3)) == [' '] + j5;
    Spaced(" -h ", "-h", host, j5);
    assert " psql -h " == [' '] + "psql" + " -h ";
    AppendAssoc([' '] + "psql", " -h ", host + ([' '] + j5));
    var j7 := Join(["-h", host, "-p", port, "-U", user, db], ' ');
    AppendAssoc([' '], "psql", [' '] + j7);
    assert "psql" + [' '] + j7 == "psql" + ([' '] + j7);
  }

  lemma AppendAssoc(a: string, b: string, c: string)
    ensures (a + b) + c == a + (b + c)
  {
  }

  lemma JoinedFront(w: string, rest: seq<string>)
    requires rest != []
    ensures Join([w] + rest, ' ') == w + [' '] + Join(rest, ' ')
  {
    assert ([w] + rest)[1..] == rest;
  }

  /** A shell reads the pasted command as exactly these words, whatever the password holds. */
  lemma PsqlCommandReads(x: Inputs)
    requires ShellPlain(x.host) && ShellPlain(x.user) && ShellPlain(x.database)
    ensures Lex(RenderPsql(x), None)
         == Words(["PGPASSWORD=" + x.password]
                  + ["psql", "-h", x.host, "-p", Decimal(x.port), "-U", x.user, x.database])
  {
    var words := ["psql", "-h", x.host, "-p", Decimal(x.port), "-U", x.user, x.database];
    RenderedPsql(x, Join(words, ' '));
    CommandWordsRead(x.host, Decimal(x.port), x.user, x.database);
    AssignmentReads("PGPASSWORD=", x.password, Join(words, ' '));
  }

  lemma CommandWordsRead(host: string, port: string, user: string, db: string)
    requires ShellPlain(host) && ShellPlain(port) && ShellPlain(user) && ShellPlain(db)
    ensures var words := ["psql", "-h", host, "-p", port, "-U", user, db]; Lex(Join(words, ' '), None) == Words(words)
  {
    PlainWordsRead(["psql", "-h", host, "-p", port, "-U", user, db]);
  }

  lemma RenderedPsql(x: Inputs, tail: string)
    requires tail == Join(["psql", "-h", x.host, "-p", Decimal(x.port), "-U", x.user, x.database], ' ')
    ensures RenderPsql(x) == "PGPASSWORD=" + ("'" + (ReplaceChar(x.password, '\'', "'\\''") + "'" + ([' '] + tail)))
  {
    CommandTail(x.host, Decimal(x.port), x.user, x.database);
    var body := ReplaceChar(x.password, '\'', "'\\''");
    assert ShQuote(x.password) + ([' '] + tail) == "'" + (body + "'" + ([' '] + tail));
  }

  lemma AssignmentReads(key: string, pw: string, rest: string)
    requires key != "" && AllCut(key, ShellPlainChar)
    ensures Lex(key + ("'" + (ReplaceChar(pw, '\'', "'\\''") + "'" + ([' '] + rest))), None)
         == Word(Some(key + pw), Lex(rest, None))
  {
    var inner := ReplaceChar(pw, '\'', "'\\''") + "'" + ([' '] + rest);
    PlainTextReads(key, "'" + inner, None);
    assert ("'" + inner)[1..] == inner;
    assert "" + key == key;
    QuotedTextReads(pw, [' '] + rest, key);
    assert ([' '] + rest)[1..] == rest;
  }
}
