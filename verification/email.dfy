/** `validateEmail`: a recognizer for the language of the regular expression
    the script tests learner ids against.  Reading the expression as a grammar:

      email    ::= local "@" domain
      local    ::= atom ("." atom)*          atom  ::= one or more atom characters
                 | '"' any+ '"'              any   ::= every character but a line terminator
      domain   ::= "[" d "." d "." d "." d "]"   d ::= one to three decimal digits
                 | (label ".")+ tld          label ::= [a-zA-Z0-9-]+,  tld ::= [a-zA-Z]{2,}

    An atom character is anything but `<>()[]\.,;:@"` and white space.  The
    grammar is written down twice.  The `...Grammar` predicates say what the
    rules say: some pieces of the right kind, glued with dots, quotes or
    brackets.  The recognizer instead splits at the last `@` and cuts each
    side at its dots.  `RecognizerMatchesGrammar` proves the two agree. */
module Email {
  import opened Wrappers

  /** Characters JavaScript's `\s` matches: white space and line terminators. */
  predicate IsJsSpace(c: char)
  {
    c == ' ' || c == '\t' || c == '\n' || c == '\r' || c == '\U{000B}' || c == '\U{000C}'
    || c == '\U{00A0}' || c == '\U{1680}' || ('\U{2000}' <= c <= '\U{200A}')
    || c == '\U{2028}' || c == '\U{2029}' || c == '\U{202F}' || c == '\U{205F}'
    || c == '\U{3000}' || c == '\U{FEFF}'
  }

  /** Characters JavaScript's `.` does not match. */
  predicate IsLineTerminator(c: char)
  {
    c == '\n' || c == '\r' || c == '\U{2028}' || c == '\U{2029}'
  }

  /** `[^<>()\[\]\\.,;:\s@"]` */
  predicate IsAtomChar(c: char)
  {
    c !in "<>()[]\\.,;:@\"" && !IsJsSpace(c)
  }

  /** `[a-zA-Z\-0-9]` */
  predicate IsLabelChar(c: char)
  {
    IsLetter(c) || IsDigit(c) || c == '-'
  }

  predicate IsLetter(c: char)
  {
    ('a' <= c <= 'z') || ('A' <= c <= 'Z')
  }

  predicate IsDigit(c: char)
  {
    '0' <= c <= '9'
  }

  predicate AllChars(s: string, ok: char -> bool)
  {
    forall i :: 0 <= i < |s| ==> ok(s[i])
  }

  /** The pieces of `s` between its dots, in order; `s` without a dot is one piece. */
  function SplitDots(s: string): (parts: seq<string>)
    ensures |parts| >= 1
    ensures forall i :: 0 <= i < |parts| ==> '.' !in parts[i]
    decreases |s|
  {
    if |s| == 0 then [""]
    else
      var rest := SplitDots(s[1..]);
      if s[0] == '.' then [""] + rest
      else [[s[0]] + rest[0]] + rest[1..]
  }

  /** The pieces glued back together with dots. */
  function JoinDots(parts: seq<string>): string
    requires |parts| >= 1
    decreases |parts|
  {
    if |parts| == 1 then parts[0] else parts[0] + "." + JoinDots(parts[1..])
  }

  /** Splitting then joining gives the string back. */
  lemma {:induction false} JoinSplit(s: string)
    ensures JoinDots(SplitDots(s)) == s
    decreases |s|
  {
    if |s| > 0 {
      var rest := SplitDots(s[1..]);
      JoinSplit(s[1..]);
      if s[0] == '.' {
        assert SplitDots(s)[1..] == rest;
      } else {
        var parts := SplitDots(s);
        if |rest| == 1 {
          assert parts == [[s[0]] + rest[0]];
        } else {
          assert parts[1..] == rest[1..];
          assert JoinDots(rest) == rest[0] + "." + JoinDots(rest[1..]);
        }
      }
    }
  }

  /** Joining dot-free pieces then splitting gives the pieces back. */
  lemma {:induction false} SplitJoin(parts: seq<string>)
    requires |parts| >= 1
    requires forall i :: 0 <= i < |parts| ==> '.' !in parts[i]
    ensures SplitDots(JoinDots(parts)) == parts
    decreases |parts|, |parts[0]|
  {
    var s := JoinDots(parts);
    if |parts[0]| == 0 {
      if |parts| > 1 {
        assert s == "." + JoinDots(parts[1..]);
        assert s[1..] == JoinDots(parts[1..]);
        SplitJoin(parts[1..]);
      }
    } else {
      var tail := [parts[0][1..]] + parts[1..];
      assert tail[1..] == parts[1..];
      assert s == [parts[0][0]] + JoinDots(tail);
      assert s[1..] == JoinDots(tail);
      assert parts[0][0] != '.' by { assert parts[0][0] in parts[0]; }
      SplitJoin(tail);
      assert [parts[0][0]] + tail[0] == parts[0];
    }
  }

  /** Every character of `s` is a dot or belongs to one of its pieces. */
  lemma {:induction false} SplitCovers(s: string, j: int)
    requires 0 <= j < |s| && s[j] != '.'
    ensures exists i :: 0 <= i < |SplitDots(s)| && s[j] in SplitDots(s)[i]
    decreases |s|
  {
    var parts := SplitDots(s);
    if j == 0 {
      assert s[0] in parts[0];
    } else {
      SplitCovers(s[1..], j - 1);
      var rest := SplitDots(s[1..]);
      var i :| 0 <= i < |rest| && s[1..][j - 1] in rest[i];
      if s[0] == '.' {
        assert parts[i + 1] == rest[i];
      } else if i == 0 {
        assert s[j] in parts[0];
      } else {
        assert parts[i] == rest[i];
      }
    }
  }

  /** `atom ("." atom)*` */
  predicate DotAtom(s: string)
  {
    var parts := SplitDots(s);
    forall i :: 0 <= i < |parts| ==> |parts[i]| > 0 && AllChars(parts[i], IsAtomChar)
  }

  /** `".+"` */
  predicate QuotedString(s: string)
  {
    |s| >= 3 && s[0] == '"' && s[|s| - 1] == '"'
    && forall i :: 1 <= i < |s| - 1 ==> !IsLineTerminator(s[i])
  }

  predicate LocalPart(s: string)
  {
    DotAtom(s) || QuotedString(s)
  }

  /** `\[[0-9]{1,3}\.[0-9]{1,3}\.[0-9]{1,3}\.[0-9]{1,3}\]` */
  predicate AddressLiteral(s: string)
  {
    |s| >= 2 && s[0] == '[' && s[|s| - 1] == ']'
    && var parts := SplitDots(s[1..|s| - 1]);
       |parts| == 4 && forall i :: 0 <= i < 4 ==> 1 <= |parts[i]| <= 3 && AllChars(parts[i], IsDigit)
  }

  /** `([a-zA-Z\-0-9]+\.)+[a-zA-Z]{2,}` */
  predicate HostName(s: string)
  {
    var parts := SplitDots(s);
    && |parts| >= 2
    && (forall i :: 0 <= i < |parts| - 1 ==> |parts[i]| > 0 && AllChars(parts[i], IsLabelChar))
    && |parts[|parts| - 1]| >= 2 && AllChars(parts[|parts| - 1], IsLetter)
  }

  predicate DomainPart(s: string)
  {
    AddressLiteral(s) || HostName(s)
  }

  /** `"` + body + `"` */
  function Quote(body: string): string
  {
    "\"" + body + "\""
  }

  /** `[` + inner + `]` */
  function Bracket(inner: string): string
  {
    "[" + inner + "]"
  }

  /** The rule `atom ("." atom)*`: one or more atoms glued with dots. */
  ghost predicate DotAtomGrammar(s: string)
  {
    exists atoms: seq<string> ::
      && |atoms| >= 1 && s == JoinDots(atoms)
      && forall i :: 0 <= i < |atoms| ==> |atoms[i]| > 0 && AllChars(atoms[i], IsAtomChar)
  }

  /** The rule `'"' any+ '"'`. */
  ghost predicate QuotedGrammar(s: string)
  {
    exists body: string ::
      && s == Quote(body) && |body| >= 1
      && forall i :: 0 <= i < |body| ==> !IsLineTerminator(body[i])
  }

  /** The rule `"[" d "." d "." d "." d "]"`. */
  ghost predicate AddressLiteralGrammar(s: string)
  {
    exists octets: seq<string> ::
      && |octets| == 4 && s == Bracket(JoinDots(octets))
      && forall i :: 0 <= i < 4 ==> 1 <= |octets[i]| <= 3 && AllChars(octets[i], IsDigit)
  }

  /** The rule `(label ".")+ tld`. */
  ghost predicate HostNameGrammar(s: string)
  {
    exists labels: seq<string>, tld: string ::
      && |labels| >= 1 && s == JoinDots(labels + [tld])
      && (forall i :: 0 <= i < |labels| ==> |labels[i]| > 0 && AllChars(labels[i], IsLabelChar))
      && |tld| >= 2 && AllChars(tld, IsLetter)
  }

  ghost predicate LocalGrammar(s: string)
  {
    DotAtomGrammar(s) || QuotedGrammar(s)
  }

  ghost predicate DomainGrammar(s: string)
  {
    AddressLiteralGrammar(s) || HostNameGrammar(s)
  }

  /** The grammar itself: some `@` splits `s` into a local part and a domain. */
  ghost predicate MatchesGrammar(s: string)
  {
    exists i :: 0 <= i < |s| && s[i] == '@' && LocalGrammar(s[..i]) && DomainGrammar(s[i + 1..])
  }

  /** A piece drawn from a character class without the dot has no dot. */
  lemma DotFree(p: string, ok: char -> bool)
    requires AllChars(p, ok) && !ok('.')
    ensures '.' !in p
  {
  }

  /** Cutting at dots recognizes exactly the dot-atoms of the grammar. */
  lemma DotAtomAgrees(s: string)
    ensures DotAtom(s) <==> DotAtomGrammar(s)
  {
    if DotAtom(s) {
      JoinSplit(s);
      assert s == JoinDots(SplitDots(s));
    }
    if DotAtomGrammar(s) {
      var atoms: seq<string> :|
        && |atoms| >= 1 && s == JoinDots(atoms)
        && forall i :: 0 <= i < |atoms| ==> |atoms[i]| > 0 && AllChars(atoms[i], IsAtomChar);
      forall i | 0 <= i < |atoms|
        ensures '.' !in atoms[i]
      {
        DotFree(atoms[i], IsAtomChar);
      }
      SplitJoin(atoms);
    }
  }

  /** The character-level test recognizes exactly the quoted strings of the grammar. */
  lemma QuotedAgrees(s: string)
    ensures QuotedString(s) <==> QuotedGrammar(s)
  {
    if QuotedString(s) {
      var body := s[1..|s| - 1];
      assert s == Quote(body);
      assert forall i :: 0 <= i < |body| ==> body[i] == s[i + 1];
    }
    if QuotedGrammar(s) {
      var body: string :|
        && s == Quote(body) && |body| >= 1
        && forall i :: 0 <= i < |body| ==> !IsLineTerminator(body[i]);
      assert forall i :: 1 <= i < |s| - 1 ==> s[i] == body[i - 1];
    }
  }

  /** Cutting inside the brackets recognizes exactly the grammar's address literals. */
  lemma AddressLiteralAgrees(s: string)
    ensures AddressLiteral(s) <==> AddressLiteralGrammar(s)
  {
    if AddressLiteral(s) {
      var inner := s[1..|s| - 1];
      JoinSplit(inner);
      assert s == Bracket(JoinDots(SplitDots(inner)));
    }
    if AddressLiteralGrammar(s) {
      var octets: seq<string> :|
        && |octets| == 4 && s == Bracket(JoinDots(octets))
        && forall i :: 0 <= i < 4 ==> 1 <= |octets[i]| <= 3 && AllChars(octets[i], IsDigit);
      forall i | 0 <= i < |octets|
        ensures '.' !in octets[i]
      {
        DotFree(octets[i], IsDigit);
      }
      SplitJoin(octets);
      assert s[1..|s| - 1] == JoinDots(octets);
    }
  }

  /** Cutting at dots recognizes exactly the grammar's host names. */
  lemma HostNameAgrees(s: string)
    ensures HostName(s) <==> HostNameGrammar(s)
  {
    if HostName(s) {
      var parts := SplitDots(s);
      var labels, tld := parts[..|parts| - 1], parts[|parts| - 1];
      assert labels + [tld] == parts;
      JoinSplit(s);
      assert s == JoinDots(labels + [tld]);
    }
    if HostNameGrammar(s) {
      var labels: seq<string>, tld: string :|
        && |labels| >= 1 && s == JoinDots(labels + [tld])
        && (forall i :: 0 <= i < |labels| ==> |labels[i]| > 0 && AllChars(labels[i], IsLabelChar))
        && |tld| >= 2 && AllChars(tld, IsLetter);
      var parts := labels + [tld];
      forall i | 0 <= i < |parts|
        ensures '.' !in parts[i]
      {
        if i < |labels| {
          DotFree(labels[i], IsLabelChar);
        } else {
          DotFree(tld, IsLetter);
        }
      }
      SplitJoin(parts);
    }
  }

  lemma LocalPartAgrees(s: string)
    ensures LocalPart(s) <==> LocalGrammar(s)
  {
    DotAtomAgrees(s);
    QuotedAgrees(s);
  }

  lemma DomainPartAgrees(s: string)
    ensures DomainPart(s) <==> DomainGrammar(s)
  {
    AddressLiteralAgrees(s);
    HostNameAgrees(s);
  }

  /** The index of the last `@` in `s`, if any. */
  function LastAt(s: string): (r: Option<nat>)
    ensures r.Some? ==> r.value < |s| && s[r.value] == '@'
    ensures r.Some? ==> forall j :: r.value < j < |s| ==> s[j] != '@'
    ensures r.None? ==> forall j :: 0 <= j < |s| ==> s[j] != '@'
    decreases |s|
  {
    if |s| == 0 then None
    else if s[|s| - 1] == '@' then Some(|s| - 1)
    else LastAt(s[..|s| - 1])
  }

  /** `validateEmail(s)` */
  predicate ValidateEmail(s: string)
  {
    match LastAt(s)
    case None => false
    case Some(i) => LocalPart(s[..i]) && DomainPart(s[i + 1..])
  }

  /** A domain never contains `@`. */
  lemma DomainHasNoAt(s: string, j: int)
    requires DomainPart(s)
    requires 0 <= j < |s|
    ensures s[j] != '@'
  {
    if AddressLiteral(s) {
      if 0 < j < |s| - 1 {
        var inner := s[1..|s| - 1];
        if inner[j - 1] != '.' {
          SplitCovers(inner, j - 1);
          var parts := SplitDots(inner);
          var i :| 0 <= i < |parts| && inner[j - 1] in parts[i];
          var m :| 0 <= m < |parts[i]| && parts[i][m] == inner[j - 1];
          assert IsDigit(parts[i][m]);
        }
      }
    } else {
      if s[j] != '.' {
        SplitCovers(s, j);
        var parts := SplitDots(s);
        var i :| 0 <= i < |parts| && s[j] in parts[i];
        var m :| 0 <= m < |parts[i]| && parts[i][m] == s[j];
        if i < |parts| - 1 {
          assert IsLabelChar(parts[i][m]);
        } else {
          assert IsLetter(parts[i][m]);
        }
      }
    }
  }

  /** The recognizer accepts exactly the strings the grammar describes. */
  lemma RecognizerMatchesGrammar(s: string)
    ensures ValidateEmail(s) <==> MatchesGrammar(s)
  {
    if ValidateEmail(s) {
      var i := LastAt(s).value;
      LocalPartAgrees(s[..i]);
      DomainPartAgrees(s[i + 1..]);
    }
    if MatchesGrammar(s) {
      var i :| 0 <= i < |s| && s[i] == '@' && LocalGrammar(s[..i]) && DomainGrammar(s[i + 1..]);
      LocalPartAgrees(s[..i]);
      DomainPartAgrees(s[i + 1..]);
      var last := LastAt(s);
      assert last.Some?;
      if last.value != i {
        assert last.value > i;
        DomainHasNoAt(s[i + 1..], last.value - i - 1);
      }
    }
  }

  /** The everyday address shape `user@host.tld` is accepted. */
  lemma {:induction false} SimpleAddress(user: string, host: string, tld: string)
    requires |user| > 0 && AllChars(user, IsLabelChar)
    requires |host| > 0 && AllChars(host, IsLabelChar)
    requires |tld| >= 2 && AllChars(tld, IsLetter)
    ensures ValidateEmail(user + "@" + host + "." + tld)
  {
    var s := user + "@" + host + "." + tld;
    var i := |user|;
    assert s[i] == '@';
    forall j | i < j < |s|
      ensures s[j] != '@'
    {
      if j < i + 1 + |host| {
        assert s[j] == host[j - i - 1];
      } else if j > i + 1 + |host| {
        assert s[j] == tld[j - i - 2 - |host|];
      }
    }
    assert LastAt(s) == Some(i);
    assert s[..i] == user;
    assert AllChars(user, IsAtomChar);
    SplitJoin([user]);
    var domain := [host, tld];
    assert s[i + 1..] == JoinDots(domain);
    SplitJoin(domain);
  }
}
