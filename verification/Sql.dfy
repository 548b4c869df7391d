/** SQL text built around identifiers and passwords, and PostgreSQL's reading of it. */
module Sql {
  import opened Strings
  import Names
  import SecretYaml

  /** pg.QuoteIdent. */
  function QuoteIdent(s: string): Result<string> {
    if Names.IdentSafe(s) then Ok("\"" + s + "\"") else Err
  }

  /** pg.LiteralEscape. */
  function LiteralEscape(s: string): string { SecretYaml.Doubled(s) }

  /** A string literal from after its opening quote (PostgreSQL section 4.1.2.1): the value and what follows. */
  function ReadLiteral(s: string): Option<(string, string)> {
    if s == "" then None
    else if s[0] != '\'' then
      var r := ReadLiteral(s[1..]);
      if r.None? then None else Some(([s[0]] + r.value.0, r.value.1))
    else if |s| > 1 && s[1] == '\'' then
      var r := ReadLiteral(s[2..]);
      if r.None? then None else Some(("'" + r.value.0, r.value.1))
    else Some(("", s[1..]))
  }

  /** A dollar-quoted body from after its opening $$ (section 4.1.2.4): it ends at the first $$. */
  function ReadDollarBody(s: string): Option<(string, string)> {
    if "$$" <= s then Some(("", s[2..]))
    else if s == "" then None
    else
      var r := ReadDollarBody(s[1..]);
      if r.None? then None else Some(([s[0]] + r.value.0, r.value.1))
  }

  /** For every text: the escaped literal decodes to it and stops at the quote that was meant to close it. */
  lemma {:induction false} LiteralReadsBack(s: string, rest: string)
    requires rest == "" || rest[0] != '\''
    ensures ReadLiteral(LiteralEscape(s) + "'" + rest) == Some((s, rest))
  {
    var t := LiteralEscape(s) + "'" + rest;
    if s == "" {
      assert t[1..] == rest;
    } else {
      LiteralReadsBack(s[1..], rest);
      var tail := LiteralEscape(s[1..]) + "'" + rest;
      assert s == [s[0]] + s[1..];
      if s[0] == '\'' {
        assert t == "''" + tail;
        assert t[2..] == tail;
      } else {
        assert t == [s[0]] + tail;
        assert t[1..] == tail;
      }
    }
  }

  const CREATE := " BEGIN\n  CREATE ROLE "
  const CREATE_PASSWORD := " LOGIN PASSWORD "
  const ALTER := ";\nEXCEPTION WHEN " + "duplicate_object THEN\n" + "  ALTER ROLE "
  const ALTER_PASSWORD := " WITH LOGIN PASSWORD "
  const END := ";\nEND "

  /** The text of the DO block from the second, and from the first, password literal on. */
  function SecondLiteral(pw: string): string { pw + ['\''] + END }

  function Between(qrole: string, pw: string): string {
    (ALTER + qrole + ALTER_PASSWORD) + ['\''] + SecondLiteral(pw)
  }

  function FirstLiteral(qrole: string, pw: string): string { pw + ['\''] + Between(qrole, pw) }

  /** The intended body of ensureRole's DO block, around the quoted role and the escaped password. */
  function EnsureRoleBody(qrole: string, pw: string): string {
    (CREATE + qrole + CREATE_PASSWORD) + ['\''] + FirstLiteral(qrole, pw)
  }

  /** ensureRole's statement, from after "DO $$". */
  function EnsureRoleRest(qrole: string, pw: string): string {
    EnsureRoleBody(qrole, pw) + "$$" + ";\n"
  }

  lemma {:induction false} ContainsAround(a: string, c: char, b: string)
    requires c != '$'
    ensures Contains(a + [c] + b, "$$") <==> Contains(a, "$$") || Contains(b, "$$")
  {
    var s := a + [c] + b;
    if a == "" {
      assert s[0] == c && s[1..] == b;
      assert !("$$" <= s);
      assert !Contains("", "$$");
    } else {
      ContainsAround(a[1..], c, b);
      assert s[0] == a[0] && s[1..] == a[1..] + [c] + b;
      if |a| == 1 {
        assert s[1] == c;
        assert !("$$" <= s) && !("$$" <= a);
      } else {
        assert s[1] == a[1];
        assert "$$" <= s <==> "$$" <= a;
      }
    }
  }

  lemma {:induction false} FreeHasNoDollars(s: string)
    requires Free(s, '$')
    ensures !Contains(s, "$$")
  {
    if s != "" {
      FreeHasNoDollars(s[1..]);
      assert s[0] != '$';
    }
  }

  lemma {:induction false} EscapeKeepsDollars(s: string)
    ensures Contains(LiteralEscape(s), "$$") <==> Contains(s, "$$")
  {
    if s != "" {
      var e := LiteralEscape(s[1..]);
      EscapeKeepsDollars(s[1..]);
      if s[0] == '\'' {
        assert LiteralEscape(s) == "" + ['\''] + (['\''] + e);
        ContainsAround("", '\'', ['\''] + e);
        assert ['\''] + e == "" + ['\''] + e;
        ContainsAround("", '\'', e);
      } else {
        assert LiteralEscape(s) == [s[0]] + e;
        assert LiteralEscape(s)[1..] == e;
        if |s| > 1 {
          SecretYaml.DoubledGrows(s[1..]);
          assert e[0] == s[1];
          assert "$$" <= LiteralEscape(s) <==> "$$" <= s;
        }
      }
    }
  }

  /** A body is read to its end exactly when it holds no $$ of its own. */
  lemma {:induction false} DollarBodyReads(b: string, rest: string)
    requires b == "" || b[|b| - 1] != '$'
    ensures ReadDollarBody(b + "$$" + rest) == Some((b, rest)) <==> !Contains(b, "$$")
  {
    var s := b + "$$" + rest;
    if b == "" {
      assert s[2..] == rest;
    } else {
      DollarBodyReads(b[1..], rest);
      assert s[1..] == b[1..] + "$$" + rest;
      assert "$$" <= s <==> "$$" <= b by {
        if |b| > 1 { assert s[0] == b[0] && s[1] == b[1]; }
      }
      if !("$$" <= s) {
        var r := ReadDollarBody(s[1..]);
        if r.Some? {
          assert [s[0]] + r.value.0 == b <==> r.value.0 == b[1..];
        }
      }
    }
  }

  lemma BodyDollars(qrole: string, pw: string)
    requires Free(qrole, '$')
    ensures Contains(EnsureRoleBody(qrole, pw), "$$") <==> Contains(pw, "$$")
  {
    var a, m := CREATE + qrole + CREATE_PASSWORD, ALTER + qrole + ALTER_PASSWORD;
    assert Free(CREATE, '$') && Free(CREATE_PASSWORD, '$') && Free(ALTER_PASSWORD, '$') && Free(END, '$');
    assert Free(";\nEXCEPTION WHEN ", '$') && Free("duplicate_object THEN\n", '$') && Free("  ALTER ROLE ", '$');
    assert Free(ALTER, '$');
    FreeHasNoDollars(a);
    FreeHasNoDollars(m);
    FreeHasNoDollars(END);
    ContainsAround(pw, '\'', END);
    ContainsAround(m, '\'', SecondLiteral(pw));
    ContainsAround(pw, '\'', Between(qrole, pw));
    ContainsAround(a, '\'', FirstLiteral(qrole, pw));
  }

  lemma BodyEnd(qrole: string, pw: string)
    ensures var b := EnsureRoleBody(qrole, pw); b != "" && b[|b| - 1] == ' '
  {
    var s2, m, s1, b := SecondLiteral(pw), Between(qrole, pw), FirstLiteral(qrole, pw), EnsureRoleBody(qrole, pw);
    assert s2[|s2| - 1] == END[|END| - 1];
    assert m[|m| - 1] == s2[|s2| - 1];
    assert s1[|s1| - 1] == m[|m| - 1];
  }

  /** For every role and password: the DO block ends where it was meant to exactly when the password holds no $$. */
  lemma EnsureRoleBlockEnds(role: string, password: string)
    requires Names.IdentSafe(role)
    ensures var q := QuoteIdent(role).value;
            var pw := LiteralEscape(password);
            ReadDollarBody(EnsureRoleRest(q, pw)) == Some((EnsureRoleBody(q, pw), ";\n")) <==> !Contains(password, "$$")
  {
    var q := QuoteIdent(role).value;
    var pw := LiteralEscape(password);
    QuotedIsFree(role);
    BodyDollars(q, pw);
    EscapeKeepsDollars(password);
    BodyEnd(q, pw);
    DollarBodyReads(EnsureRoleBody(q, pw), ";\n");
  }

  /** Its two literals, read from after their opening quotes, decode to the password and close in place. */
  lemma EnsureRoleLiterals(qrole: string, password: string)
    ensures ReadLiteral(FirstLiteral(qrole, LiteralEscape(password))) == Some((password, Between(qrole, LiteralEscape(password))))
    ensures ReadLiteral(SecondLiteral(LiteralEscape(password))) == Some((password, END))
  {
    var pw := LiteralEscape(password);
    assert ALTER[0] == ";\nEXCEPTION WHEN "[0] == ';';
    assert Between(qrole, pw)[0] == (ALTER + qrole)[0] == ALTER[0];
    LiteralReadsBack(password, Between(qrole, pw));
    LiteralReadsBack(password, END);
  }

  /** A quoted identifier from after its opening quote (section 4.1.1): the name and what follows. */
  function ReadIdent(s: string): Option<(string, string)> {
    if s == "" then None
    else if s[0] == '"' then Some(("", s[1..]))
    else
      var r := ReadIdent(s[1..]);
      if r.None? then None else Some(([s[0]] + r.value.0, r.value.1))
  }

  lemma {:induction false} IdentReadsBack(name: string, rest: string)
    requires Free(name, '"')
    ensures ReadIdent(name + "\"" + rest) == Some((name, rest))
  {
    var t := name + "\"" + rest;
    if name == "" {
      assert t[1..] == rest;
    } else {
      IdentReadsBack(name[1..], rest);
      assert t[0] == name[0] && t[1..] == name[1..] + "\"" + rest;
      assert name == [name[0]] + name[1..];
    }
  }

  /** The block creates the tenant's role: this is the name read after CREATE ROLE. */
  lemma CreatesRole(role: string, pw: string)
    requires Names.IdentSafe(role)
    ensures var q := QuoteIdent(role).value;
            var tail := " LOGIN PASSWORD " + ['\''] + FirstLiteral(q, pw);
            && EnsureRoleBody(q, pw) == " BEGIN\n  CREATE ROLE \"" + (role + "\"" + tail)
            && ReadIdent(role + "\"" + tail) == Some((role, tail))
  {
    var q := QuoteIdent(role).value;
    var tail := " LOGIN PASSWORD " + ['\''] + FirstLiteral(q, pw);
    assert Free(role, '"');
    IdentReadsBack(role, tail);
    assert " BEGIN\n  CREATE ROLE \"" == CREATE + "\"";
    Framed(CREATE, role, " LOGIN PASSWORD ", ['\''], FirstLiteral(q, pw));
  }

  /** Or it alters the same role if it exists: this is the name read after ALTER ROLE, and what ends the block. */
  lemma AltersRole(role: string, pw: string)
    requires Names.IdentSafe(role)
    ensures var q := QuoteIdent(role).value;
            var tail := " WITH LOGIN PASSWORD " + ['\''] + SecondLiteral(pw);
            && Between(q, pw) == ";\nEXCEPTION WHEN duplicate_object THEN\n  ALTER ROLE \"" + (role + "\"" + tail)
            && ReadIdent(role + "\"" + tail) == Some((role, tail))
            && SecondLiteral(pw) == pw + ['\''] + ";\nEND "
  {
    var q := QuoteIdent(role).value;
    var tail := " WITH LOGIN PASSWORD " + ['\''] + SecondLiteral(pw);
    assert Free(role, '"');
    IdentReadsBack(role, tail);
    AlterText();
    Framed(ALTER, role, " WITH LOGIN PASSWORD ", ['\''], SecondLiteral(pw));
  }

  lemma Framed(before: string, role: string, after: string, quote: string, rest: string)
    ensures (before + ("\"" + role + "\"") + after) + quote + rest
         == (before + "\"") + (role + "\"" + (after + quote + rest))
  {
  }

  lemma AlterText()
    ensures ";\nEXCEPTION WHEN duplicate_object THEN\n  ALTER ROLE \"" == ALTER + "\""
  {
    assert ";\nEXCEPTION WHEN duplicate_object THEN\n" == ";\nEXCEPTION WHEN " + "duplicate_object THEN\n";
    assert ";\nEXCEPTION WHEN duplicate_object THEN\n  ALTER ROLE \""
        == ";\nEXCEPTION WHEN duplicate_object THEN\n" + ("  ALTER ROLE " + "\"");
  }

  lemma QuotedIsFree(role: string)
    requires Names.IdentSafe(role)
    ensures Free(QuoteIdent(role).value, '$')
  {
    assert Free(role, '$');
  }
}
