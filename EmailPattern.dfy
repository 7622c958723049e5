/**
 * The e-mail check of the sign-in form: the regular expression
 * `^[^\s@]+@[^\s@]+\.[^\s@]+$`, matched against the whole (untrimmed) input.
 *
 * `MatchesEmailPattern` runs a hand-written deterministic automaton for it;
 * `EmailShape` says declaratively which strings the expression accepts; the lemmas
 * prove the two agree on every string.
 */
module EmailPattern {
  import opened Text

  /** A character of the class `[^\s@]`. */
  predicate IsAtomChar(c: char) {
    !IsSpace(c) && c != '@'
  }

  /** Every character of `t` is in `[^\s@]`. */
  ghost predicate AtomChars(t: string) {
    forall i :: 0 <= i < |t| ==> IsAtomChar(t[i])
  }

  /** `d` holds a '.' at neither its first nor its last position. */
  ghost predicate InnerDot(d: string) {
    exists k :: 1 <= k < |d| - 1 && d[k] == '.'
  }

  /** `d` matches `[^\s@]+\.[^\s@]+`. */
  ghost predicate DomainShape(d: string) {
    AtomChars(d) && InnerDot(d)
  }

  /** `s` matches `^[^\s@]+@[^\s@]+\.[^\s@]+$`: a non-empty local part, an '@', a domain. */
  ghost predicate EmailShape(s: string) {
    exists at :: 0 < at < |s| && s[at] == '@' && AtomChars(s[..at]) && DomainShape(s[at + 1..])
  }

  /**
   * The states of the scanner:
   *   Start      nothing read;
   *   Local      a non-empty local part read;
   *   AtSign     the local part and '@' read;
   *   Domain     a non-empty domain part read, with no '.' after its first character;
   *   DomainDot  as Domain, but the last character is a '.' after the first one;
   *   Accept     a '.' strictly inside the domain part has been seen;
   *   Reject     a character no continuation can repair.
   */
  datatype ScanState = Start | Local | AtSign | Domain | DomainDot | Accept | Reject

  /** One transition of the scanner. */
  function Step(st: ScanState, c: char): ScanState {
    if !IsAtomChar(c) then
      if c == '@' && st == Local then AtSign else Reject
    else
      match st
      case Start => Local
      case Local => Local
      case AtSign => Domain
      case Domain => if c == '.' then DomainDot else Domain
      case DomainDot => Accept
      case Accept => Accept
      case Reject => Reject
  }

  /** The state reached from `st` after reading all of `t`. */
  function Run(st: ScanState, t: string): ScanState
    decreases |t|
  {
    if t == [] then st else Run(Step(st, t[0]), t[1..])
  }

  /** `email.match(/^[^\s@]+@[^\s@]+\.[^\s@]+$/)` is not null. */
  predicate MatchesEmailPattern(s: string) {
    Run(Start, s) == Accept
  }

  lemma AtomCharsCons(t: string)
    requires t != []
    ensures AtomChars(t) <==> IsAtomChar(t[0]) && AtomChars(t[1..])
  {
    assert forall i :: 1 <= i < |t| ==> t[i] == t[1..][i - 1];
  }

  lemma {:induction false} RejectIsFinal(t: string)
    ensures Run(Reject, t) == Reject
    decreases |t|
  {
    if t != [] {
      RejectIsFinal(t[1..]);
    }
  }

  /** From Accept, the rest must stay inside `[^\s@]`. */
  lemma {:induction false} AcceptSuffix(t: string)
    ensures Run(Accept, t) == Accept <==> AtomChars(t)
    decreases |t|
  {
    if t != [] {
      AtomCharsCons(t);
      if IsAtomChar(t[0]) {
        AcceptSuffix(t[1..]);
      } else {
        RejectIsFinal(t[1..]);
      }
    }
  }

  /** From DomainDot, at least one more `[^\s@]` character is needed. */
  lemma DomainDotSuffix(t: string)
    ensures Run(DomainDot, t) == Accept <==> |t| >= 1 && AtomChars(t)
  {
    if t != [] {
      AtomCharsCons(t);
      if IsAtomChar(t[0]) {
        AcceptSuffix(t[1..]);
      } else {
        RejectIsFinal(t[1..]);
      }
    }
  }

  /** From Domain, the rest needs a '.' somewhere before its last character. */
  lemma {:induction false} DomainSuffix(t: string)
    ensures Run(Domain, t) == Accept <==>
              AtomChars(t) && exists k :: 0 <= k < |t| - 1 && t[k] == '.'
    decreases |t|
  {
    if t != [] {
      var u := t[1..];
      AtomCharsCons(t);
      assert forall k :: 1 <= k < |t| ==> t[k] == u[k - 1];
      if !IsAtomChar(t[0]) {
        RejectIsFinal(u);
      } else if t[0] == '.' {
        DomainDotSuffix(u);
        if |u| >= 1 {
          assert 0 < |t| - 1 && t[0] == '.';
        }
      } else {
        DomainSuffix(u);
        if exists k :: 0 <= k < |t| - 1 && t[k] == '.' {
          var k :| 0 <= k < |t| - 1 && t[k] == '.';
          assert 0 <= k - 1 < |u| - 1 && u[k - 1] == '.';
        }
        if exists k :: 0 <= k < |u| - 1 && u[k] == '.' {
          var k :| 0 <= k < |u| - 1 && u[k] == '.';
          assert 0 <= k + 1 < |t| - 1 && t[k + 1] == '.';
        }
      }
    }
  }

  /** From AtSign, the rest must be a whole domain part. */
  lemma AtSignSuffix(t: string)
    ensures Run(AtSign, t) == Accept <==> DomainShape(t)
  {
    if t != [] {
      var u := t[1..];
      AtomCharsCons(t);
      assert forall k :: 1 <= k < |t| ==> t[k] == u[k - 1];
      if !IsAtomChar(t[0]) {
        RejectIsFinal(u);
      } else {
        DomainSuffix(u);
        if InnerDot(t) {
          var k :| 1 <= k < |t| - 1 && t[k] == '.';
          assert 0 <= k - 1 < |u| - 1 && u[k - 1] == '.';
        }
        if exists k :: 0 <= k < |u| - 1 && u[k] == '.' {
          var k :| 0 <= k < |u| - 1 && u[k] == '.';
          assert 1 <= k + 1 < |t| - 1 && t[k + 1] == '.';
        }
      }
    }
  }

  /** `t` is the remainder of a local part followed by '@' and a domain part. */
  ghost predicate LocalRest(t: string) {
    exists at :: 0 <= at < |t| && t[at] == '@' && AtomChars(t[..at]) && DomainShape(t[at + 1..])
  }

  /** A leading '@' ends the local part: what follows must be a domain part. */
  lemma LocalRestAtSign(t: string)
    requires t != [] && t[0] == '@'
    ensures LocalRest(t) <==> DomainShape(t[1..])
  {
    assert t[..0] == [];
    forall at | 0 < at <= |t| ensures !AtomChars(t[..at]) {
      assert t[..at][0] == '@';
    }
  }

  /** A leading character outside `[^\s@]` other than '@' cannot start the rest. */
  lemma LocalRestBad(t: string)
    requires t != [] && !IsAtomChar(t[0]) && t[0] != '@'
    ensures !LocalRest(t)
  {
    forall at | 0 < at <= |t| ensures !AtomChars(t[..at]) {
      assert t[..at][0] == t[0];
    }
  }

  /**
   * Dropping a leading `[^\s@]` character moves an '@' split of `t` at `at` to a split of
   * `t[1..]` at `at - 1`, and back.
   */
  lemma SplitShift(t: string, at: nat)
    requires 0 < at < |t| && IsAtomChar(t[0])
    ensures (t[at] == '@' && AtomChars(t[..at]) && DomainShape(t[at + 1..])) <==>
            (t[1..][at - 1] == '@' && AtomChars(t[1..][..at - 1]) && DomainShape(t[1..][at..]))
  {
    AtomCharsCons(t[..at]);
    assert t[..at][1..] == t[1..][..at - 1];
    assert t[at + 1..] == t[1..][at..];
  }

  /** A leading `[^\s@]` character extends the local part. */
  lemma LocalRestCons(t: string)
    requires t != [] && IsAtomChar(t[0])
    ensures LocalRest(t) <==> LocalRest(t[1..])
  {
    if LocalRest(t) {
      var at :| 0 <= at < |t| && t[at] == '@' && AtomChars(t[..at]) && DomainShape(t[at + 1..]);
      SplitShift(t, at);
    }
    if LocalRest(t[1..]) {
      var at :| 0 <= at < |t[1..]| && t[1..][at] == '@' && AtomChars(t[1..][..at]) && DomainShape(t[1..][at + 1..]);
      SplitShift(t, at + 1);
    }
  }

  /** From Local, the rest must finish the local part, then hold '@' and a domain part. */
  lemma {:induction false} LocalSuffix(t: string)
    ensures Run(Local, t) == Accept <==> LocalRest(t)
    decreases |t|
  {
    if t != [] {
      if t[0] == '@' {
        AtSignSuffix(t[1..]);
        LocalRestAtSign(t);
      } else if !IsAtomChar(t[0]) {
        RejectIsFinal(t[1..]);
        LocalRestBad(t);
      } else {
        LocalSuffix(t[1..]);
        LocalRestCons(t);
      }
    }
  }

  /** The whole shape is one `[^\s@]` character followed by the rest of a local part. */
  lemma ShapeCons(s: string)
    ensures EmailShape(s) <==> s != [] && IsAtomChar(s[0]) && LocalRest(s[1..])
  {
    if EmailShape(s) {
      var at :| 0 < at < |s| && s[at] == '@' && AtomChars(s[..at]) && DomainShape(s[at + 1..]);
      assert s[..at][0] == s[0];
      SplitShift(s, at);
    }
    if s != [] && IsAtomChar(s[0]) && LocalRest(s[1..]) {
      var at :| 0 <= at < |s[1..]| && s[1..][at] == '@' && AtomChars(s[1..][..at]) && DomainShape(s[1..][at + 1..]);
      SplitShift(s, at + 1);
    }
  }

  /** The scanner accepts exactly the strings of the declared shape. */
  lemma MatchesIffShape(s: string)
    ensures MatchesEmailPattern(s) <==> EmailShape(s)
  {
    ShapeCons(s);
    if s != [] {
      if IsAtomChar(s[0]) {
        LocalSuffix(s[1..]);
      } else {
        RejectIsFinal(s[1..]);
      }
    }
  }

  /** The two sides of position `a` are both in `[^\s@]` exactly when every other character is. */
  lemma AtomSides(s: string, a: nat)
    requires a < |s|
    ensures AtomChars(s[..a]) && AtomChars(s[a + 1..]) <==>
            forall i :: 0 <= i < |s| && i != a ==> IsAtomChar(s[i])
  {
    assert forall i :: 0 <= i < a ==> s[..a][i] == s[i];
    assert forall i :: a < i < |s| ==> s[a + 1..][i - a - 1] == s[i];
  }

  /**
   * The shape spelled out around a given '@': the whole string is free of white space,
   * that '@' is its only one, something precedes it, and the part after it holds a '.'
   * at neither its first nor its last position.
   */
  lemma ShapeAroundAt(s: string, at: nat)
    requires at < |s| && s[at] == '@'
    ensures EmailShape(s) <==>
              && at > 0
              && NoSpace(s)
              && (forall i :: 0 <= i < |s| && i != at ==> s[i] != '@')
              && InnerDot(s[at + 1..])
  {
    AtomSides(s, at);
    if EmailShape(s) {
      var a :| 0 < a < |s| && s[a] == '@' && AtomChars(s[..a]) && DomainShape(s[a + 1..]);
      AtomSides(s, a);
      assert a == at;
    }
  }

  /** A string without '@' never has the shape. */
  lemma NoAtNoShape(s: string)
    requires '@' !in s
    ensures !EmailShape(s)
  {
  }
}
