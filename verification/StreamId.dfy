/** Stream identifiers `<milliseconds>-<sequence>`: written in decimal, read back as a pair. */
module StreamId {
  import opened Wrappers

  datatype Position = Position(millis: nat, sequence: nat)

  predicate Precedes(a: Position, b: Position) {
    a.millis < b.millis || (a.millis == b.millis && a.sequence < b.sequence)
  }

  predicate IsDigit(c: char) {
    '0' <= c <= '9'
  }

  function DigitValue(c: char): nat
    requires IsDigit(c)
  {
    c as int - '0' as int
  }

  predicate AllDigits(s: string) {
    |s| > 0 && forall i :: 0 <= i < |s| ==> IsDigit(s[i])
  }

  function Value(s: string): nat
    requires forall i :: 0 <= i < |s| ==> IsDigit(s[i])
  {
    if s == "" then 0 else 10 * Value(s[..|s| - 1]) + DigitValue(s[|s| - 1])
  }

  function Decimal(n: nat): (s: string)
    ensures AllDigits(s)
  {
    (if n < 10 then "" else Decimal(n / 10)) + [(48 + n % 10) as char]
  }

  lemma DigitOf(d: nat)
    requires d < 10
    ensures IsDigit((48 + d) as char) && DigitValue((48 + d) as char) == d
  {
  }

  lemma ValueAppend(s: string, c: char)
    requires (forall i :: 0 <= i < |s| ==> IsDigit(s[i])) && IsDigit(c)
    ensures forall i :: 0 <= i < |s + [c]| ==> IsDigit((s + [c])[i])
    ensures Value(s + [c]) == 10 * Value(s) + DigitValue(c)
  {
    assert (s + [c])[..|s|] == s;
  }

  lemma {:induction false} DecimalValue(n: nat)
    ensures Value(Decimal(n)) == n
  {
    DigitOf(n % 10);
    if n < 10 {
      ValueAppend("", (48 + n % 10) as char);
    } else {
      DecimalValue(n / 10);
      ValueAppend(Decimal(n / 10), (48 + n % 10) as char);
    }
  }

  function FirstDash(s: string): (k: nat)
    ensures k <= |s| && (forall i :: 0 <= i < k ==> s[i] != '-') && (k < |s| ==> s[k] == '-')
  {
    if s == "" || s[0] == '-' then 0 else FirstDash(s[1..]) + 1
  }

  /** `_stream_position`: split at the first dash; both parts must be plain digits. */
  function Parse(s: string): Option<Position> {
    var k := FirstDash(s);
    if k == |s| || !AllDigits(s[..k]) || !AllDigits(s[k + 1..]) then None
    else Some(Position(Value(s[..k]), Value(s[k + 1..])))
  }

  function Format(p: Position): string {
    Decimal(p.millis) + "-" + Decimal(p.sequence)
  }

  /** Reading a written identifier gives it back, so different positions have different texts. */
  lemma ParseFormat(p: Position)
    ensures Parse(Format(p)) == Some(p)
  {
    var m, n := Decimal(p.millis), Decimal(p.sequence);
    var s := Format(p);
    assert s[|m|] == '-';
    var k := FirstDash(s);
    forall i | 0 <= i < |m| ensures s[i] != '-' {
      assert IsDigit(m[i]);
    }
    assert k == |m|;
    assert s[..k] == m && s[k + 1..] == n;
    DecimalValue(p.millis);
    DecimalValue(p.sequence);
  }

  predicate IsNumber(s: string) {
    s != "" && forall c :: c in s ==> '0' <= c <= '9'
  }

  lemma NumberDigits(s: string)
    ensures AllDigits(s) <==> IsNumber(s)
  {
    if AllDigits(s) {
      forall c | c in s ensures '0' <= c <= '9' {
        var i :| 0 <= i < |s| && s[i] == c;
        assert IsDigit(s[i]);
      }
    }
    if IsNumber(s) {
      assert forall i :: 0 <= i < |s| ==> s[i] in s;
    }
  }

  /** The text is two decimal numbers joined by a dash. */
  ghost predicate Writes(s: string, m: string, n: string, p: Position) {
    && s == m + "-" + n && IsNumber(m) && IsNumber(n)
    && (NumberDigits(m); NumberDigits(n); Value(m) == p.millis && Value(n) == p.sequence)
  }

  /** Exactly such texts are read; leading zeros do not matter, anything else is refused. */
  lemma ParseExactly(s: string, p: Position)
    ensures Parse(s) == Some(p) <==> exists m, n :: Writes(s, m, n, p)
  {
    if Parse(s) == Some(p) {
      var k := FirstDash(s);
      assert s == s[..k] + "-" + s[k + 1..];
      NumberDigits(s[..k]);
      NumberDigits(s[k + 1..]);
      assert Writes(s, s[..k], s[k + 1..], p);
    }
    if m, n :| Writes(s, m, n, p) {
      NumberDigits(m);
      NumberDigits(n);
      assert s[|m|] == '-';
      var k := FirstDash(s);
      forall i | 0 <= i < |m| ensures s[i] != '-' {
        assert m[i] in m;
      }
      assert s[..|m|] == m && s[|m| + 1..] == n;
    }
  }
}
