/** The login page, `login.js`: the e-mail test `/^[^\s@]+@[^\s@]+\.[^\s@]+$/` and the gate
    that stops the sign-in before anything is stored. */
module LoginPage {
  import opened Wrappers
  import opened Text
  import opened Storage

  /** `[^\s@]`: any character that is neither white space nor `@`. */
  predicate Allowed(c: char) {
    !IsWhitespace(c) && c != '@'
  }

  predicate AllAllowed(s: string) {
    forall i :: 0 <= i < |s| ==> Allowed(s[i])
  }

  /** The language of the regular expression, read off its structure: a non-empty local part,
      `@` at `i`, a non-empty host, `.` at `j`, and a non-empty last part, each made of allowed
      characters. */
  ghost predicate PatternAt(s: string, i: int, j: int) {
    0 < i && i + 1 < j && j + 1 < |s| && s[i] == '@' && s[j] == '.'
    && AllAllowed(s[..i]) && AllAllowed(s[i + 1..j]) && AllAllowed(s[j + 1..])
  }

  ghost predicate EmailPattern(s: string) {
    exists i, j :: PatternAt(s, i, j)
  }

  /** The states of a matcher for the expression, one character at a time: nothing read, inside
      the local part, just after `@`, inside the host, just after a dot that can end the host,
      in the last part (the accepting state), and rejected. */
  datatype State = Start | Local | AtSign | Host | Dot | Tld | Reject

  function Step(q: State, c: char): State {
    match q
    case Start => if Allowed(c) then Local else Reject
    case Local => if c == '@' then AtSign else if Allowed(c) then Local else Reject
    case AtSign => if Allowed(c) then Host else Reject
    case Host => if c == '.' then Dot else if Allowed(c) then Host else Reject
    case Dot => if Allowed(c) then Tld else Reject
    case Tld => if Allowed(c) then Tld else Reject
    case Reject => Reject
  }

  function Run(q: State, s: string): State
    decreases |s|
  {
    if s == [] then q else Run(Step(q, s[0]), s[1..])
  }

  /** `isValidEmail`: the matcher ends in its accepting state, which happens exactly for the
      strings of the regular expression's language. */
  function IsValidEmail(email: string): (r: bool)
    ensures r <==> EmailPattern(email)
  {
    RunAccepts(Start, email);
    StartIsPattern(email);
    Run(Start, email) == Tld
  }

  /** `t` is allowed characters with a `.` at `j` that has one character after it. */
  ghost predicate DotAt(t: string, j: int) {
    0 <= j < |t| - 1 && t[j] == '.' && AllAllowed(t[..j]) && AllAllowed(t[j + 1..])
  }

  /** A non-empty host, a dot and a non-empty last part. */
  ghost predicate HostAndTld(d: string) {
    exists j :: 1 <= j && DotAt(d, j)
  }

  /** `t` is allowed characters with an `@` at `i` followed by a host, a dot and a last part. */
  ghost predicate AtSignAt(t: string, i: int) {
    0 <= i < |t| && t[i] == '@' && AllAllowed(t[..i]) && HostAndTld(t[i + 1..])
  }

  /** What the rest `t` of the input must be, in each state, for the whole input to match. */
  ghost predicate Accepts(q: State, t: string) {
    match q
    case Start => exists i :: 1 <= i && AtSignAt(t, i)
    case Local => exists i :: AtSignAt(t, i)
    case AtSign => HostAndTld(t)
    case Host => exists j :: DotAt(t, j)
    case Dot => |t| > 0 && AllAllowed(t)
    case Tld => AllAllowed(t)
    case Reject => false
  }

  lemma AllAllowedCons(t: string)
    requires t != []
    ensures AllAllowed(t) <==> Allowed(t[0]) && AllAllowed(t[1..])
  {
    if Allowed(t[0]) && AllAllowed(t[1..]) {
      forall i | 0 <= i < |t| ensures Allowed(t[i]) {
        if i > 0 {
          assert t[i] == t[1..][i - 1];
        }
      }
    }
  }

  /** Taking one allowed character off the front moves every split point one place left. */
  lemma DotAtCons(t: string, j: int)
    requires t != [] && Allowed(t[0]) && 1 <= j
    ensures DotAt(t, j) <==> DotAt(t[1..], j - 1)
  {
    if 0 <= j < |t| {
      assert t[1..][..j - 1] == t[..j][1..];
      assert t[1..][j - 1 + 1..] == t[j + 1..];
      AllAllowedCons(t[..j]);
    }
  }

  lemma AtSignAtCons(t: string, i: int)
    requires t != [] && Allowed(t[0]) && 1 <= i
    ensures AtSignAt(t, i) <==> AtSignAt(t[1..], i - 1)
  {
    if 0 <= i < |t| {
      assert t[1..][..i - 1] == t[..i][1..];
      assert t[1..][i - 1 + 1..] == t[i + 1..];
      AllAllowedCons(t[..i]);
    }
  }

  lemma StepStart(t: string)
    requires t != []
    ensures Accepts(Start, t) <==> Accepts(Step(Start, t[0]), t[1..])
  {
    if Accepts(Start, t) {
      var i :| 1 <= i && AtSignAt(t, i);
      assert Allowed(t[..i][0]);
      AtSignAtCons(t, i);
    }
    if Allowed(t[0]) && Accepts(Local, t[1..]) {
      var i :| AtSignAt(t[1..], i);
      AtSignAtCons(t, i + 1);
    }
  }

  lemma StepLocal(t: string)
    requires t != []
    ensures Accepts(Local, t) <==> Accepts(Step(Local, t[0]), t[1..])
  {
    if Accepts(Local, t) {
      var i :| AtSignAt(t, i);
      if i == 0 {
        assert t[0 + 1..] == t[1..];
      } else {
        assert Allowed(t[..i][0]);
        AtSignAtCons(t, i);
      }
    }
    if t[0] == '@' && Accepts(AtSign, t[1..]) {
      var j :| 1 <= j && DotAt(t[1..], j);
      assert t[..0] == [];
      assert t[0 + 1..] == t[1..];
      assert AtSignAt(t, 0);
    }
    if t[0] != '@' && Allowed(t[0]) && Accepts(Local, t[1..]) {
      var i :| AtSignAt(t[1..], i);
      AtSignAtCons(t, i + 1);
    }
  }

  lemma StepAtSign(t: string)
    requires t != []
    ensures Accepts(AtSign, t) <==> Accepts(Step(AtSign, t[0]), t[1..])
  {
    if Accepts(AtSign, t) {
      var j :| 1 <= j && DotAt(t, j);
      assert Allowed(t[..j][0]);
      DotAtCons(t, j);
    }
    if Allowed(t[0]) && Accepts(Host, t[1..]) {
      var j :| DotAt(t[1..], j);
      DotAtCons(t, j + 1);
    }
  }

  lemma StepHost(t: string)
    requires t != []
    ensures Accepts(Host, t) <==> Accepts(Step(Host, t[0]), t[1..])
  {
    if Accepts(Host, t) {
      var j :| DotAt(t, j);
      if j == 0 {
        assert t[0 + 1..] == t[1..];
      } else {
        assert Allowed(t[..j][0]);
        DotAtCons(t, j);
      }
    }
    if t[0] == '.' && Accepts(Dot, t[1..]) {
      assert t[..0] == [];
      assert t[0 + 1..] == t[1..];
      assert DotAt(t, 0);
    }
    if t[0] != '.' && Allowed(t[0]) && Accepts(Host, t[1..]) {
      var j :| DotAt(t[1..], j);
      DotAtCons(t, j + 1);
    }
  }

  lemma StepRest(q: State, t: string)
    requires t != [] && (q == Dot || q == Tld || q == Reject)
    ensures Accepts(q, t) <==> Accepts(Step(q, t[0]), t[1..])
  {
    AllAllowedCons(t);
  }

  /** One character taken by the matcher leaves exactly the rests its new state accepts. */
  lemma StepAccepts(q: State, t: string)
    requires t != []
    ensures Accepts(q, t) <==> Accepts(Step(q, t[0]), t[1..])
  {
    match q
    case Start => StepStart(t);
    case Local => StepLocal(t);
    case AtSign => StepAtSign(t);
    case Host => StepHost(t);
    case _ => StepRest(q, t);
  }

  lemma {:induction false} RunAccepts(q: State, t: string)
    ensures Run(q, t) == Tld <==> Accepts(q, t)
    decreases |t|
  {
    if t != [] {
      StepAccepts(q, t);
      RunAccepts(Step(q, t[0]), t[1..]);
    }
  }

  lemma StartIsPattern(s: string)
    ensures Accepts(Start, s) <==> EmailPattern(s)
  {
    if Accepts(Start, s) {
      var i :| 1 <= i && AtSignAt(s, i);
      var d := s[i + 1..];
      var j :| 1 <= j && DotAt(d, j);
      assert s[i + 1..i + 1 + j] == d[..j];
      assert s[i + 1 + j + 1..] == d[j + 1..];
      assert PatternAt(s, i, i + 1 + j);
    }
    if EmailPattern(s) {
      var i, j :| PatternAt(s, i, j);
      var d := s[i + 1..];
      assert d[..j - (i + 1)] == s[i + 1..j];
      assert d[j - (i + 1) + 1..] == s[j + 1..];
      assert DotAt(d, j - (i + 1));
      assert AtSignAt(s, i);
    }
  }

  /** What an accepted address looks like: exactly one `@`, not first; no white space; and a
      dot in what follows the `@` with at least one character on each side of it. */
  lemma AcceptedEmailShape(email: string)
    requires IsValidEmail(email)
    ensures exists i :: 0 < i < |email| && email[i] == '@'
                        && (forall k :: 0 <= k < |email| && email[k] == '@' ==> k == i)
                        && (exists j :: i + 1 < j < |email| - 1 && email[j] == '.')
    ensures forall k :: 0 <= k < |email| ==> !IsWhitespace(email[k])
  {
    var i, j :| PatternAt(email, i, j);
    forall k | 0 <= k < |email| ensures k != i ==> Allowed(email[k]) {
      if k < i {
        assert email[k] == email[..i][k];
      } else if i < k < j {
        assert email[k] == email[i + 1..j][k - i - 1];
      } else if k > j {
        assert email[k] == email[j + 1..][k - j - 1];
      }
    }
  }

  lemma EmailExamples()
    ensures IsValidEmail("a@b.c")
    ensures !IsValidEmail("a@b") && !IsValidEmail("a@.c") && !IsValidEmail("")
  {
    assert Run(Start, "a@b.c") == Run(Local, "@b.c") == Run(AtSign, "b.c") == Run(Host, ".c")
        == Run(Dot, "c") == Run(Tld, "");
    assert Run(Start, "a@b") == Run(Local, "@b") == Run(AtSign, "b") == Run(Host, "");
    assert Run(Start, "a@.c") == Run(Local, "@.c") == Run(AtSign, ".c") == Run(Host, "c") == Run(Host, "");
  }

  /** What `handleLogin` does with the address. */
  datatype LoginOutcome = InvalidEmail | SignedIn

  /** `handleLogin`: an address the test rejects shows the error and returns before any storage
      write; an accepted one is stored with the logged-in flag (after the simulated delay). */
  method HandleLogin(store: Store, email: string) returns (outcome: LoginOutcome)
    modifies store`userEmail, store`isLoggedIn
    ensures outcome == InvalidEmail <==> !IsValidEmail(email)
    ensures !IsValidEmail(email) ==> store.userEmail == old(store.userEmail) && store.isLoggedIn == old(store.isLoggedIn)
    ensures IsValidEmail(email) ==> store.userEmail == Some(email) && store.isLoggedIn == Some("true")
  {
    if !IsValidEmail(email) {
      return InvalidEmail;
    }
    store.userEmail := Some(email);
    store.isLoggedIn := Some("true");
    outcome := SignedIn;
  }
}
