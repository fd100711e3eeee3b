/** The registration page's client-side rules: the password-strength score
    with its label and colours, and the two checks made before submitting. */
module Register {
  import opened Common
  import opened Text

  predicate IsUpper(c: char) { 'A' <= c <= 'Z' }

  predicate IsAsciiAlnum(c: char) { 'A' <= c <= 'Z' || 'a' <= c <= 'z' || '0' <= c <= '9' }

  predicate HasUpper(s: string) { exists i :: 0 <= i < |s| && IsUpper(s[i]) }

  predicate HasDigit(s: string) { exists i :: 0 <= i < |s| && IsDigit(s[i]) }

  predicate HasSymbol(s: string) { exists i :: 0 <= i < |s| && !IsAsciiAlnum(s[i]) }

  /** The four criteria in the order the score tests them: at least six
      UTF-16 code units (`password.length`), an upper-case letter, a digit,
      a character outside [A-Za-z0-9]. */
  function Criteria(password: string): (c: seq<bool>)
    ensures |c| == 4
  {
    [JsLength(password) >= 6, HasUpper(password), HasDigit(password), HasSymbol(password)]
  }

  function CountTrue(c: seq<bool>): (n: nat)
    ensures n <= |c|
  {
    if c == [] then 0 else (if c[0] then 1 else 0) + CountTrue(c[1..])
  }

  /** The score is 25 per satisfied criterion. */
  function Score(password: string): int {
    25 * CountTrue(Criteria(password))
  }

  /** The `useEffect` that computes the strength: 0 for an empty password, otherwise
      25 added for each satisfied criterion in turn. */
  method Strength(password: string) returns (strength: int)
    ensures strength == Score(password)
    ensures strength in {0, 25, 50, 75, 100}
  {
    if password == [] {
      strength := 0;
    } else {
      strength := 0;
      if JsLength(password) >= 6 { strength := strength + 25; }
      if HasUpper(password) { strength := strength + 25; }
      if HasDigit(password) { strength := strength + 25; }
      if HasSymbol(password) { strength := strength + 25; }
    }
    CountFour(Criteria(password));
  }

  lemma CountFour(c: seq<bool>)
    requires |c| == 4
    ensures CountTrue(c) == (if c[0] then 1 else 0) + (if c[1] then 1 else 0)
                            + (if c[2] then 1 else 0) + (if c[3] then 1 else 0)
  {
    var d := c[1..];
    var e := d[1..];
    var f := e[1..];
    assert d[0] == c[1] && e[0] == c[2] && f[0] == c[3] && f[1..] == [];
    assert CountTrue(f) == (if c[3] then 1 else 0);
    assert CountTrue(e) == (if c[2] then 1 else 0) + CountTrue(f);
    assert CountTrue(d) == (if c[1] then 1 else 0) + CountTrue(e);
  }

  /** The score only takes the five values 0, 25, 50, 75 and 100, and the
      empty password scores 0. */
  lemma ScoreValues(password: string)
    ensures Score(password) in {0, 25, 50, 75, 100}
    ensures password == [] ==> Score(password) == 0
  {
    CountFour(Criteria(password));
  }

  /** Satisfying more criteria never lowers the score, and satisfying a
      strictly larger set raises it. */
  lemma {:induction false} CountTrueMonotone(a: seq<bool>, b: seq<bool>)
    requires |a| == |b|
    requires forall k :: 0 <= k < |a| ==> a[k] ==> b[k]
    ensures CountTrue(a) <= CountTrue(b)
    ensures (exists k :: 0 <= k < |a| && b[k] && !a[k]) ==> CountTrue(a) < CountTrue(b)
  {
    if a != [] {
      CountTrueMonotone(a[1..], b[1..]);
      if exists k :: 0 <= k < |a| && b[k] && !a[k] {
        var k :| 0 <= k < |a| && b[k] && !a[k];
        if k > 0 {
          assert b[1..][k - 1] && !a[1..][k - 1];
        }
      }
    }
  }

  lemma ScoreMonotone(p: string, q: string)
    requires forall k :: 0 <= k < 4 ==> Criteria(p)[k] ==> Criteria(q)[k]
    ensures Score(p) <= Score(q)
    ensures (exists k :: 0 <= k < 4 && Criteria(q)[k] && !Criteria(p)[k]) ==> Score(p) < Score(q)
  {
    CountTrueMonotone(Criteria(p), Criteria(q));
  }

  /** Typing one more character never weakens the password. */
  lemma TypingNeverWeakens(p: string, c: char)
    ensures Score(p) <= Score(p + [c])
  {
    var q := p + [c];
    JsLengthSnoc(p, c);
    assert forall i :: 0 <= i < |p| ==> q[i] == p[i];
    if HasUpper(p) { var i :| 0 <= i < |p| && IsUpper(p[i]); assert IsUpper(q[i]); }
    if HasDigit(p) { var i :| 0 <= i < |p| && IsDigit(p[i]); assert IsDigit(q[i]); }
    if HasSymbol(p) { var i :| 0 <= i < |p| && !IsAsciiAlnum(p[i]); assert !IsAsciiAlnum(q[i]); }
    ScoreMonotone(p, q);
  }

  datatype Level = Weak | Medium | Strong

  /** `getPasswordStrengthText`: below 50 Weak, below 75 Medium, else Strong. */
  function Label(strength: int): (l: Level)
    ensures l == Weak <==> strength < 50
    ensures l == Medium <==> 50 <= strength < 75
    ensures l == Strong <==> strength >= 75
  {
    if strength < 50 then Weak else if strength < 75 then Medium else Strong
  }

  datatype Colour = Red | Yellow | Green

  /** `getPasswordStrengthColor`, the bar's colour: the label's thresholds. */
  function BarColour(strength: int): (c: Colour)
    ensures c == (match Label(strength) case Weak => Red case Medium => Yellow case Strong => Green)
  {
    if strength < 50 then Red else if strength < 75 then Yellow else Green
  }

  /** The colour of the label's text as written: `> 75` green, `> 50`
      yellow, else red. */
  function TextColourAsWritten(strength: int): Colour {
    if strength > 75 then Green else if strength > 50 then Yellow else Red
  }

  /** As written, a score of 50 is labelled Medium in red and a score of 75 is
      labelled Strong in yellow, out of step with the bar. */
  lemma TextColourDisagrees()
    ensures Label(50) == Medium && TextColourAsWritten(50) == Red && BarColour(50) == Yellow
    ensures Label(75) == Strong && TextColourAsWritten(75) == Yellow && BarColour(75) == Green
  {
  }

  /** The label's text colour on the label's own thresholds. */
  function TextColour(strength: int): (c: Colour)
    ensures c == BarColour(strength)
  {
    if strength < 50 then Red else if strength < 75 then Yellow else Green
  }

  /** The two differ exactly at the shared boundary scores 50 and 75. */
  lemma TextColourFixAt(strength: int)
    requires strength in {0, 25, 50, 75, 100}
    ensures TextColour(strength) != TextColourAsWritten(strength) <==> strength == 50 || strength == 75
  {
  }

  datatype SubmitError = PasswordTooShort | NameTooShort

  /** `handleSubmit`'s checks, password first: a password under six code
      units is refused whatever the name, then a name whose trimmed form has
      fewer than two. */
  function CheckSubmit(name: string, password: string): (r: Result<(), SubmitError>)
    ensures r == Err(PasswordTooShort) <==> JsLength(password) < 6
    ensures r == Err(NameTooShort) <==> JsLength(password) >= 6 && JsLength(Trim(name)) < 2
    ensures r.Ok? <==> JsLength(password) >= 6 && JsLength(Trim(name)) >= 2
  {
    if JsLength(password) < 6 then Err(PasswordTooShort)
    else if JsLength(Trim(name)) < 2 then Err(NameTooShort)
    else Ok(())
  }

  /** An emoji outside the Basic Multilingual Plane. */
  const Grin: char := '\U{1F600}'

  /** Lengths are counted in code units: three such emoji make a six-unit
      password, which meets the score's length criterion. */
  lemma AstralPasswordLength()
    ensures JsLength([Grin, Grin, Grin]) == 6
    ensures Criteria([Grin, Grin, Grin])[0]
  {
    var one, two, three := [Grin], [Grin, Grin], [Grin, Grin, Grin];
    assert CodeUnits(Grin) == 2;
    assert one[..0] == [] && two[..1] == one && three[..2] == two;
    assert JsLength(one) == 2;
    assert JsLength(two) == 4;
    assert JsLength(three) == 6;
    assert Criteria(three)[0] == (JsLength(three) >= 6);
  }

  /** The same password passes the submit-time length check. */
  lemma AstralPasswordAccepted()
    ensures CheckSubmit("Al", [Grin, Grin, Grin]).Ok?
  {
    AstralPasswordLength();
    var n := "Al";
    assert TrimStart(n) == n && TrimEnd(n) == n;
    JsLengthBmp(n);
  }

  /** A password accepted at submit time already scores at least 25. */
  lemma AcceptedPasswordScores(name: string, password: string)
    requires CheckSubmit(name, password).Ok?
    ensures Score(password) >= 25
  {
    CountFour(Criteria(password));
  }
}
