/** WriteUdevRules: the configured udev rules are written to one rules
    file, each rule on its own line, with the newlines inside a rule
    escaped as line continuations. */
module UdevRules {
  import opened Common
  import opened Strings

  /** constants.UdevRulesPath. */
  const UdevRulesPath: string := "/usr/etc/udev/rules.d/99-talos.rules"

  /** The permissions of the rules file. */
  const UdevRulesPerm: nat := 0x1A4 // 0o644

  /** strings.ReplaceAll(rule, "\n", "\\\n"): each newline becomes a line continuation. */
  function Escape(rule: string): string
  {
    ReplaceAll(rule, "\n", "\\\n")
  }

  /** strings.ReplaceAll(s, "\\\n", "\n"): line continuations become newlines again. */
  function Unescape(s: string): string
  {
    ReplaceAll(s, "\\\n", "\n")
  }

  /** The file content: every rule escaped and terminated by a newline, in order. */
  function UdevRulesContent(rules: seq<string>): string
  {
    if rules == [] then "" else Escape(rules[0]) + "\n" + UdevRulesContent(rules[1..])
  }

  /** The escaping, one character at a time. */
  function EscapeChars(r: string): (e: string)
    ensures e == [] <==> r == []
    ensures e != [] ==> e[0] != '\n'
    ensures r != [] && r[|r| - 1] != '\n' ==> e[|e| - 1] == r[|r| - 1]
    ensures r != [] && r[|r| - 1] == '\n' ==> e[|e| - 1] == '\n'
  {
    if r == [] then []
    else (if r[0] == '\n' then "\\\n" else [r[0]]) + EscapeChars(r[1..])
  }

  lemma {:induction false} EscapeIsCharwise(r: string)
    ensures Escape(r) == EscapeChars(r)
  {
    if r != [] {
      EscapeIsCharwise(r[1..]);
      if r[0] == '\n' {
        assert r[..1] == "\n";
      } else {
        assert r[..1] != "\n";
      }
    }
  }

  /** Escaping loses nothing: unescaping an escaped rule gives the rule back. */
  lemma {:induction false} UnescapeEscape(r: string)
    ensures Unescape(Escape(r)) == r
  {
    EscapeIsCharwise(r);
    UnescapeEscapeChars(r);
  }

  lemma {:induction false} UnescapeEscapeChars(r: string)
    ensures Unescape(EscapeChars(r)) == r
  {
    if r != [] {
      var e := EscapeChars(r);
      var rest := EscapeChars(r[1..]);
      UnescapeEscapeChars(r[1..]);
      if r[0] == '\n' {
        assert e == "\\\n" + rest;
        assert e[..2] == "\\\n";
        assert e[2..] == rest;
      } else {
        assert e == [r[0]] + rest;
        assert e[1..] == rest;
        if |e| >= 2 {
          assert e[1] == rest[0];
          assert e[..2] != "\\\n";
        } else {
          assert rest == [] && r[1..] == [];
        }
      }
    }
  }

  /** s[i] ends a line: a newline not preceded by a backslash. */
  predicate EndsLineAt(s: string, i: nat)
    requires i < |s|
  {
    s[i] == '\n' && (i == 0 || s[i - 1] != '\\')
  }

  /** The number of unescaped newlines of s. */
  function Terminators(s: string): (n: nat)
    ensures n <= |s|
  {
    if s == [] then 0
    else Terminators(s[..|s| - 1]) + (if EndsLineAt(s, |s| - 1) then 1 else 0)
  }

  /** Counting terminators splits at a boundary that cannot join a
      backslash to a newline. */
  lemma {:induction false} TerminatorsAppend(a: string, b: string)
    requires a == [] || b == [] || a[|a| - 1] != '\\' || b[0] != '\n'
    ensures Terminators(a + b) == Terminators(a) + Terminators(b)
  {
    if b == [] {
      assert a + b == a;
    } else {
      var s := a + b;
      var b' := b[..|b| - 1];
      assert s[..|s| - 1] == a + b';
      TerminatorsAppend(a, b');
      if |b| == 1 {
        assert b' == [];
        assert Terminators(b) == (if EndsLineAt(b, 0) then 1 else 0);
        if a == [] {
          assert s == b;
        }
      } else {
        assert s[|s| - 2] == b[|b| - 2];
      }
    }
  }

  /** An escaped rule holds no line terminator of its own. */
  lemma {:induction false} EscapedHasNoTerminator(r: string)
    ensures Terminators(EscapeChars(r)) == 0
  {
    if r != [] {
      EscapedHasNoTerminator(r[1..]);
      var piece := if r[0] == '\n' then "\\\n" else [r[0]];
      var rest := EscapeChars(r[1..]);
      TerminatorsAppend(piece, rest);
      if r[0] == '\n' {
        assert piece[..1] == "\\";
        assert Terminators(piece[..1]) == 0;
      } else {
        assert piece[..0] == [];
      }
    }
  }

  /** Whether a rule's own terminator survives: it does unless the rule ends
      in a backslash, which turns the terminator into a continuation. */
  predicate Terminated(rule: string)
  {
    rule == [] || rule[|rule| - 1] != '\\'
  }

  /** The number of rules whose terminator survives. */
  function TerminatedCount(rules: seq<string>): (n: nat)
    ensures n <= |rules|
  {
    if rules == [] then 0 else (if Terminated(rules[0]) then 1 else 0) + TerminatedCount(rules[1..])
  }

  /** One escaped rule and its newline end exactly one line, unless the rule
      ends in a backslash. */
  lemma OneRuleTerminators(r: string)
    ensures Terminators(Escape(r) + "\n") == if Terminated(r) then 1 else 0
  {
    EscapeIsCharwise(r);
    var e := EscapeChars(r);
    EscapedHasNoTerminator(r);
    assert (e + "\n")[..|e|] == e;
  }

  /** The rules file has exactly one unescaped line terminator per rule that
      does not end in a backslash: with no such rule, one per rule. */
  lemma {:induction false} ContentTerminators(rules: seq<string>)
    ensures Terminators(UdevRulesContent(rules)) == TerminatedCount(rules)
    ensures (forall k :: 0 <= k < |rules| ==> Terminated(rules[k])) ==>
              Terminators(UdevRulesContent(rules)) == |rules|
  {
    if rules != [] {
      ContentTerminators(rules[1..]);
      var head := Escape(rules[0]) + "\n";
      OneRuleTerminators(rules[0]);
      TerminatorsAppend(head, UdevRulesContent(rules[1..]));
      if forall k :: 0 <= k < |rules| ==> Terminated(rules[k]) {
        assert forall k :: 0 <= k < |rules[1..]| ==> Terminated(rules[1..][k]) by {
          forall k | 0 <= k < |rules[1..]| ensures Terminated(rules[1..][k]) {
            assert rules[1..][k] == rules[k + 1];
          }
        }
      }
    }
  }

  /** The strings.Builder loop. */
  method BuildUdevRules(rules: seq<string>) returns (content: string)
    ensures content == UdevRulesContent(rules)
  {
    content := "";
    var i := 0;
    while i < |rules|
      invariant 0 <= i <= |rules|
      invariant content + UdevRulesContent(rules[i..]) == UdevRulesContent(rules)
    {
      assert rules[i..][1..] == rules[i + 1..];
      ghost var before := content;
      var escaped := ReplaceAll(rules[i], "\n", "\\\n");
      content := content + escaped;
      content := content + "\n";
      ConcatAssoc(before, escaped, "\n");
      ConcatAssoc(before, escaped + "\n", UdevRulesContent(rules[i + 1..]));
      i := i + 1;
    }
    assert rules[i..] == [];
    assert content + "" == content;
  }

  /** WriteUdevRules: the content is written to the rules file; a write
      failure is returned wrapped. */
  method WriteUdevRules(rules: seq<string>, writeErr: Option<Error>) returns (o: Outcome)
    ensures o.trace == [WriteFile(UdevRulesPath, UdevRulesContent(rules), UdevRulesPerm)]
    ensures o.err == if writeErr.Some? then Some(Wrapped("failed writing custom udev rules", writeErr.value)) else None
  {
    var content := BuildUdevRules(rules);
    if writeErr.Some? {
      return Outcome(Some(Wrapped("failed writing custom udev rules", writeErr.value)), [WriteFile(UdevRulesPath, content, UdevRulesPerm)]);
    }
    return Outcome(None, [WriteFile(UdevRulesPath, content, UdevRulesPerm)]);
  }
}
