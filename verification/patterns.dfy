/** The regular expressions the forms test input against. The phone and e-mail
    expressions are each given twice: as the pattern read piece by piece (a concatenation
    of its parts, which is what a regular expression denotes) and as a direct positional
    check, with a lemma that the two agree. `^[a-zA-Z0-9_]+$` is given directly as
    `IsWord`. */
module Patterns {
  import opened Optional
  import opened Text

  /** `^[a-zA-Z0-9_]+$` */
  predicate IsWord(s: string) {
    |s| > 0 && forall i :: 0 <= i < |s| ==> IsWordChar(s[i])
  }

  /** A word is never blank: its first character is not whitespace. */
  lemma WordNotBlank(s: string)
    ensures IsWord(s) ==> !AllSpace(s)
  {
    if IsWord(s) {
      NotBlankAt(s, 0);
    }
  }

  // ---------------------------------------------------------------------------
  // Phone: ^01[0-9]-\d{3,4}-\d{4}$

  /** The text `01<a>-<middle>-<last>`. */
  function PhoneText(a: char, middle: string, last: string): string {
    "01" + [a] + "-" + middle + "-" + last
  }

  /** The phone pattern as its pieces: "01", one digit, "-", three or four digits, "-",
      four digits, and nothing before or after. */
  ghost predicate PhoneShape(s: string) {
    exists a: char, middle: string, last: string ::
      && s == PhoneText(a, middle, last)
      && IsDigit(a)
      && (|middle| == 3 || |middle| == 4) && AllDigits(middle)
      && |last| == 4 && AllDigits(last)
  }

  /** The phone pattern checked position by position: the length fixes the width of the
      middle group. */
  predicate MatchesPhone(s: string) {
    && (|s| == 12 || |s| == 13)
    && s[0] == '0' && s[1] == '1' && IsDigit(s[2]) && s[3] == '-'
    && AllDigits(s[4..|s| - 5]) && s[|s| - 5] == '-' && AllDigits(s[|s| - 4..])
  }

  lemma PhoneMatchIffShape(s: string)
    ensures MatchesPhone(s) <==> PhoneShape(s)
  {
    if MatchesPhone(s) {
      MatchedPhoneHasShape(s);
    }
    if PhoneShape(s) {
      var a: char, middle: string, last: string :|
        && s == PhoneText(a, middle, last)
        && IsDigit(a)
        && (|middle| == 3 || |middle| == 4) && AllDigits(middle)
        && |last| == 4 && AllDigits(last);
      PhoneShapeMatches(a, middle, last);
    }
  }

  lemma MatchedPhoneHasShape(s: string)
    requires MatchesPhone(s)
    ensures PhoneShape(s)
  {
    var middle, last := s[4..|s| - 5], s[|s| - 4..];
    assert s == s[..4] + middle + [s[|s| - 5]] + last;
    assert s[..4] == "01" + [s[2]] + "-";
    assert s == PhoneText(s[2], middle, last);
  }

  lemma PhoneShapeMatches(a: char, middle: string, last: string)
    requires IsDigit(a)
    requires (|middle| == 3 || |middle| == 4) && AllDigits(middle)
    requires |last| == 4 && AllDigits(last)
    ensures MatchesPhone(PhoneText(a, middle, last))
  {
    var s := PhoneText(a, middle, last);
    assert s == ['0', '1', a, '-'] + middle + ['-'] + last;
    assert s[4..|s| - 5] == middle;
    assert s[|s| - 4..] == last;
  }

  /** A phone number is never blank: it starts with '0'. */
  lemma PhoneNotBlank(s: string)
    ensures PhoneShape(s) ==> !AllSpace(s)
  {
    if PhoneShape(s) {
      var a: char, middle: string, last: string :|
        s == PhoneText(a, middle, last) && IsDigit(a) && |last| == 4;
      assert s[0] == '0';
      NotBlankAt(s, 0);
    }
  }

  // ---------------------------------------------------------------------------
  // E-mail: ^[^\s@]+@[^\s@]+\.[^\s@]+$

  /** The class `[^\s@]`. */
  predicate IsPlain(c: char) {
    !IsSpace(c) && c != '@'
  }

  /** `[^\s@]+` */
  predicate PlainRun(s: string) {
    |s| > 0 && forall i :: 0 <= i < |s| ==> IsPlain(s[i])
  }

  /** The text `<local>@<host>.<tail>`. */
  function EmailText(local: string, host: string, tail: string): string {
    local + "@" + host + "." + tail
  }

  /** The e-mail pattern as its pieces. The host run may itself hold dots, since `.`
      belongs to `[^\s@]`. */
  ghost predicate EmailShape(s: string) {
    exists local: string, host: string, tail: string ::
      s == EmailText(local, host, tail) && PlainRun(local) && PlainRun(host) && PlainRun(tail)
  }

  /** The position of the first occurrence of `c` in `s`. */
  function IndexOf(s: string, c: char): (r: Option<nat>)
    ensures r.None? ==> forall i :: 0 <= i < |s| ==> s[i] != c
    ensures r.Some? ==> r.value < |s| && s[r.value] == c
                        && forall i :: 0 <= i < r.value ==> s[i] != c
  {
    if s == [] then None
    else if s[0] == c then Some(0)
    else match IndexOf(s[1..], c)
      case None => None
      case Some(i) => Some(i + 1)
  }

  /** The host and tail together: plain characters (a dot is one) with a dot that has
      at least one character on each side. */
  predicate MatchesDomain(d: string) {
    && (forall i :: 0 <= i < |d| ==> IsPlain(d[i]))
    && exists k :: 1 <= k < |d| - 1 && d[k] == '.'
  }

  /** The e-mail pattern checked by position: a non-empty plain run before the first `@`,
      and a domain after it. */
  predicate MatchesEmail(s: string) {
    match IndexOf(s, '@')
    case None => false
    case Some(i) => PlainRun(s[..i]) && MatchesDomain(s[i + 1..])
  }

  lemma EmailMatchIffShape(s: string)
    ensures MatchesEmail(s) <==> EmailShape(s)
  {
    if MatchesEmail(s) {
      MatchedEmailHasShape(s);
    }
    if EmailShape(s) {
      var local: string, host: string, tail: string :|
        s == EmailText(local, host, tail) && PlainRun(local) && PlainRun(host) && PlainRun(tail);
      EmailShapeMatches(local, host, tail);
    }
  }

  lemma PlainSlice(d: string, lo: int, hi: int)
    requires forall i :: 0 <= i < |d| ==> IsPlain(d[i])
    requires 0 <= lo < hi <= |d|
    ensures PlainRun(d[lo..hi])
  {
    var t := d[lo..hi];
    forall j | 0 <= j < |t| ensures IsPlain(t[j]) {
      assert t[j] == d[lo + j];
    }
  }

  lemma MatchedEmailHasShape(s: string)
    requires MatchesEmail(s)
    ensures EmailShape(s)
  {
    var i := IndexOf(s, '@').value;
    var d := s[i + 1..];
    var k :| 1 <= k < |d| - 1 && d[k] == '.';
    var local, host, tail := s[..i], d[..k], d[k + 1..];
    PlainSlice(d, 0, k);
    PlainSlice(d, k + 1, |d|);
    assert d == host + "." + tail;
    assert s == local + "@" + d;
    assert s == EmailText(local, host, tail);
  }

  lemma EmailShapeMatches(local: string, host: string, tail: string)
    requires PlainRun(local) && PlainRun(host) && PlainRun(tail)
    ensures MatchesEmail(EmailText(local, host, tail))
  {
    var s := EmailText(local, host, tail);
    var i := |local|;
    var d := host + "." + tail;
    assert s == local + "@" + d;
    assert s[i] == '@';
    assert forall j :: 0 <= j < i ==> s[j] == local[j];
    assert IndexOf(s, '@') == Some(i);
    assert s[..i] == local;
    assert s[i + 1..] == d;
    assert d[|host|] == '.';
    forall j | 0 <= j < |d| ensures IsPlain(d[j]) {
      if j < |host| {
        assert d[j] == host[j];
      } else if j > |host| {
        assert d[j] == tail[j - |host| - 1];
      }
    }
  }

  /** An e-mail address is never blank: its `@` is not whitespace. */
  lemma EmailNotBlank(s: string)
    ensures EmailShape(s) ==> !AllSpace(s)
  {
    if EmailShape(s) {
      var local: string, host: string, tail: string :|
        s == EmailText(local, host, tail) && PlainRun(local);
      assert s[|local|] == '@';
      NotBlankAt(s, |local|);
    }
  }
}
