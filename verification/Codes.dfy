/**
 Reading a verification code out of an inbound body (verify/codes.go), and the
 instructions that tell a user what to send.

 `ExtractCode` is the specification function; the method `ExtractCodeScan` is the
 two-pass scanner of the source. The lemmas say what the function means without
 mentioning how it scans.
 */
module Codes {

  const MIN_CODE_LEN := 4
  const MAX_CODE_LEN := 12
  const FALLBACK_CODE_LEN := 6

  predicate IsDigit(c: char) { '0' <= c <= '9' }

  predicate IsSeparator(c: char) {
    c == ' ' || c == '\t' || c == '\n' || c == '\r' || c == '-' || c == '.'
  }

  predicate AllDigits(s: string) { forall i | 0 <= i < |s| :: IsDigit(s[i]) }

  predicate NoDigits(s: string) { forall i | 0 <= i < |s| :: !IsDigit(s[i]) }

  predicate PlausibleLen(n: nat) { MIN_CODE_LEN <= n <= MAX_CODE_LEN }

  predicate IsCode(s: string) { PlausibleLen(|s|) && AllDigits(s) }

  function Strip(s: string): string {
    if s == [] then []
    else if IsSeparator(s[0]) then Strip(s[1..])
    else [s[0]] + Strip(s[1..])
  }

  /** Length of the digit run at the front of s. */
  function LeadingDigits(s: string): (n: nat)
    ensures n <= |s|
  {
    if s != [] && IsDigit(s[0]) then 1 + LeadingDigits(s[1..]) else 0
  }

  /** The first digit run of plausible length, skipping (never merging) other runs. */
  function FirstRun(s: string): string
    decreases |s|
  {
    if s == [] then []
    else
      var n := LeadingDigits(s);
      if n == 0 then FirstRun(s[1..])
      else if PlausibleLen(n) then s[..n]
      else FirstRun(s[n..])
  }

  function ExtractCode(body: string): string { FirstRun(Strip(body)) }

  // ---------------------------------------------------------------- meaning

  /** s[i..j] is a maximal run of digits. */
  ghost predicate MaximalRun(s: string, i: nat, j: nat) {
    && i < j <= |s|
    && AllDigits(s[i..j])
    && (i == 0 || !IsDigit(s[i - 1]))
    && (j == |s| || !IsDigit(s[j]))
  }

  /** r is the leftmost maximal run of plausible length that starts at p or later, or empty if there is none. */
  ghost predicate IsFirstPlausibleFrom(s: string, p: nat, r: string) {
    if r == "" then
      forall i: nat, j: nat | p <= i && MaximalRun(s, i, j) :: !PlausibleLen(j - i)
    else
      exists i: nat, j: nat :: IsFirstPlausibleAt(s, p, i, j) && r == s[i..j]
  }

  ghost predicate IsFirstPlausibleAt(s: string, p: nat, i: nat, j: nat) {
    && p <= i && MaximalRun(s, i, j) && PlausibleLen(j - i)
    && forall i': nat, j': nat | p <= i' < i && MaximalRun(s, i', j') :: !PlausibleLen(j' - i')
  }

  ghost predicate IsFirstPlausibleRun(s: string, r: string) { IsFirstPlausibleFrom(s, 0, r) }

  lemma {:induction false} LeadingDigitsMeaning(s: string)
    ensures AllDigits(s[..LeadingDigits(s)])
    ensures LeadingDigits(s) < |s| ==> !IsDigit(s[LeadingDigits(s)])
  {
    if s != [] && IsDigit(s[0]) {
      LeadingDigitsMeaning(s[1..]);
      var n := LeadingDigits(s[1..]);
      assert s[..1 + n] == [s[0]] + s[1..][..n];
    }
  }

  /** Stretches without a plausible run do not change the answer. */
  lemma SkipTo(s: string, p: nat, q: nat, r: string)
    requires p <= q && IsFirstPlausibleFrom(s, q, r)
    requires forall i: nat, j: nat | p <= i < q && MaximalRun(s, i, j) :: !PlausibleLen(j - i)
    ensures IsFirstPlausibleFrom(s, p, r)
  {
    if r != "" {
      var i: nat, j: nat :| IsFirstPlausibleAt(s, q, i, j) && r == s[i..j];
      assert IsFirstPlausibleAt(s, p, i, j);
    }
  }

  /** The scan from a run boundary p of the whole text finds the first plausible run at or after p. */
  lemma {:induction false} FirstRunFrom(s: string, p: nat)
    requires p <= |s|
    requires p == 0 || p == |s| || !IsDigit(s[p - 1]) || !IsDigit(s[p])
    ensures IsFirstPlausibleFrom(s, p, FirstRun(s[p..]))
    decreases |s| - p
  {
    if p == |s| {
      NothingFromEnd(s);
    } else {
      var n := LeadingDigits(s[p..]);
      FirstRunStep(s, p);
      FirstRunFrom(s, if n == 0 then p + 1 else p + n);
      if n == 0 { SkipNonDigit(s, p, FirstRun(s[p + 1..])); }
      else if PlausibleLen(n) { PlausibleRunIsFirst(s, p, p + n); }
      else { SkipRun(s, p, p + n, FirstRun(s[p + n..])); }
    }
  }

  lemma NothingFromEnd(s: string)
    ensures IsFirstPlausibleFrom(s, |s|, FirstRun(s[|s|..]))
  {}

  /** One step of the scan at a run boundary p < |s|, on the whole text. */
  lemma FirstRunStep(s: string, p: nat)
    requires p < |s|
    requires p == 0 || !IsDigit(s[p - 1]) || !IsDigit(s[p])
    ensures var n := LeadingDigits(s[p..]);
      && (n == 0 ==> !IsDigit(s[p]))
      && (n > 0 ==> MaximalRun(s, p, p + n))
      && FirstRun(s[p..]) == if n == 0 then FirstRun(s[p + 1..]) else if PlausibleLen(n) then s[p..p + n] else FirstRun(s[p + n..])
  {
    var t := s[p..];
    assert t[1..] == s[p + 1..];
    if IsDigit(s[p]) {
      RunAtBoundary(s, p);
      assert t[LeadingDigits(t)..] == s[p + LeadingDigits(t)..];
    }
  }

  lemma SkipNonDigit(s: string, p: nat, r: string)
    requires p < |s| && !IsDigit(s[p]) && IsFirstPlausibleFrom(s, p + 1, r)
    ensures IsFirstPlausibleFrom(s, p, r)
  {
    NoRunStartsAt(s, p);
    SkipTo(s, p, p + 1, r);
  }

  lemma SkipRun(s: string, p: nat, q: nat, r: string)
    requires MaximalRun(s, p, q) && !PlausibleLen(q - p) && IsFirstPlausibleFrom(s, q, r)
    ensures IsFirstPlausibleFrom(s, p, r)
  {
    OneRunPerStart(s, p, q);
    SkipTo(s, p, q, r);
  }

  lemma PlausibleRunIsFirst(s: string, p: nat, q: nat)
    requires MaximalRun(s, p, q) && PlausibleLen(q - p)
    ensures IsFirstPlausibleFrom(s, p, s[p..q])
  {
    assert IsFirstPlausibleAt(s, p, p, q);
    assert s[p..q] != "";
  }

  lemma NoRunStartsAt(s: string, p: nat)
    requires p < |s| && !IsDigit(s[p])
    ensures forall j: nat :: !MaximalRun(s, p, j)
  {
    forall j: nat
      ensures !MaximalRun(s, p, j)
    {
      if p < j <= |s| { assert s[p..j][0] == s[p]; }
    }
  }

  /** The leading digits at a run boundary are a maximal run. */
  lemma RunAtBoundary(s: string, p: nat)
    requires p < |s| && IsDigit(s[p])
    requires p == 0 || !IsDigit(s[p - 1]) || !IsDigit(s[p])
    ensures MaximalRun(s, p, p + LeadingDigits(s[p..]))
    ensures LeadingDigits(s[p..]) > 0
    ensures s[p..p + LeadingDigits(s[p..])] == s[p..][..LeadingDigits(s[p..])]
  {
    var t := s[p..];
    LeadingDigitsMeaning(t);
    assert s[p..p + LeadingDigits(t)] == t[..LeadingDigits(t)];
  }

  /** Inside the run s[p..q] no other maximal run starts. */
  lemma {:induction false} OneRunPerStart(s: string, p: nat, q: nat)
    requires MaximalRun(s, p, q)
    ensures forall i: nat, j: nat | MaximalRun(s, i, j) && p <= i < q :: i == p && j == q
  {
    assert forall k | p <= k < q :: IsDigit(s[k]) by {
      assert forall k | p <= k < q :: s[p..q][k - p] == s[k];
    }
    forall i: nat, j: nat | MaximalRun(s, i, j) && p <= i < q
      ensures i == p && j == q
    {
      assert forall k | i <= k < j :: IsDigit(s[k]) by {
        assert forall k | i <= k < j :: s[i..j][k - i] == s[k];
      }
    }
  }

  /** What a body's code is: the first maximal run of 4 to 12 digits once separators are dropped. */
  lemma {:induction false} ExtractCodeMeaning(body: string)
    ensures IsFirstPlausibleRun(Strip(body), ExtractCode(body))
    ensures ExtractCode(body) == "" || IsCode(ExtractCode(body))
    ensures ExtractCode(body) != "" ==>
              4 <= |ExtractCode(body)| <= 12 && forall i | 0 <= i < |ExtractCode(body)| :: '0' <= ExtractCode(body)[i] <= '9'
  {
    var s := Strip(body);
    FirstRunFrom(s, 0);
    assert s[0..] == s;
    if ExtractCode(body) != "" {
      var i: nat, j: nat :| IsFirstPlausibleAt(s, 0, i, j) && FirstRun(s) == s[i..j];
    }
  }

  /** The meaning leaves no freedom: only one answer satisfies it. */
  lemma {:induction false} MeaningIsUnique(s: string, r: string, r': string)
    requires IsFirstPlausibleRun(s, r) && IsFirstPlausibleRun(s, r')
    ensures r == r'
  {
    if r != "" && r' != "" {
      var i: nat, j: nat :| IsFirstPlausibleAt(s, 0, i, j) && r == s[i..j];
      var i': nat, j': nat :| IsFirstPlausibleAt(s, 0, i', j') && r' == s[i'..j'];
      OneRunPerStart(s, i, j);
      OneRunPerStart(s, i', j');
      assert i == i' && j == j';
    }
  }

  // ---------------------------------------------------------------- separators and padding

  lemma {:induction false} StripConcat(a: string, b: string)
    ensures Strip(a + b) == Strip(a) + Strip(b)
  {
    if a == [] {
      assert a + b == b;
    } else {
      assert (a + b)[1..] == a[1..] + b;
      StripConcat(a[1..], b);
    }
  }

  lemma SeparatorsListed(c: char)
    ensures IsSeparator(c) <==> c in " \t\n\r-."
  {
    var listed := " \t\n\r-.";
    assert listed[0] == ' ' && listed[1] == '\t' && listed[2] == '\n' && listed[3] == '\r' && listed[4] == '-' && listed[5] == '.';
  }

  /** Only those six characters are dropped: any other one ends a run of digits or is part of it. */
  lemma OtherCharactersStay(a: string, c: char, b: string)
    requires c !in " \t\n\r-."
    ensures Strip(a + [c] + b) == Strip(a) + [c] + Strip(b)
  {
    SeparatorsListed(c);
    StripConcat(a + [c], b);
    StripConcat(a, [c]);
    assert Strip([c]) == [c];
  }

  /** A separator inserted anywhere changes nothing. */
  lemma {:induction false} SeparatorsAreInvisible(a: string, sep: string, b: string)
    requires forall i | 0 <= i < |sep| :: sep[i] in " \t\n\r-."
    ensures ExtractCode(a + sep + b) == ExtractCode(a + b)
  {
    forall i | 0 <= i < |sep|
      ensures IsSeparator(sep[i])
    {
      SeparatorsListed(sep[i]);
    }
    StripOfSeparators(sep);
    StripConcat(a + sep, b);
    StripConcat(a, sep);
    StripConcat(a, b);
    assert Strip(a) + [] == Strip(a);
  }

  lemma {:induction false} StripOfSeparators(sep: string)
    requires forall i | 0 <= i < |sep| :: IsSeparator(sep[i])
    ensures Strip(sep) == []
  {
    if sep != [] { StripOfSeparators(sep[1..]); }
  }

  lemma {:induction false} StripKeepsNoDigits(s: string)
    requires NoDigits(s)
    ensures NoDigits(Strip(s))
  {
    if s != [] { StripKeepsNoDigits(s[1..]); }
  }

  lemma {:induction false} StripOfDigits(s: string)
    requires AllDigits(s)
    ensures Strip(s) == s
  {
    if s != [] { StripOfDigits(s[1..]); }
  }

  lemma {:induction false} LeadingDigitsOf(run: string, rest: string)
    requires AllDigits(run)
    requires rest == [] || !IsDigit(rest[0])
    ensures LeadingDigits(run + rest) == |run|
  {
    if run == [] {
      assert run + rest == rest;
    } else {
      assert (run + rest)[1..] == run[1..] + rest;
      LeadingDigitsOf(run[1..], rest);
    }
  }

  lemma {:induction false} SkipNonDigits(pre: string, s: string)
    requires NoDigits(pre)
    ensures FirstRun(pre + s) == FirstRun(s)
  {
    if pre == [] {
      assert pre + s == s;
    } else {
      assert (pre + s)[1..] == pre[1..] + s;
      SkipNonDigits(pre[1..], s);
    }
  }

  /** A code followed by the end of the text or a non-digit is what the scan returns. */
  lemma {:induction false} FirstRunIsCode(pre: string, code: string, post: string)
    requires NoDigits(pre) && IsCode(code)
    requires post == [] || !IsDigit(post[0])
    ensures FirstRun(pre + code + post) == code
  {
    assert pre + code + post == pre + (code + post);
    SkipNonDigits(pre, code + post);
    LeadingDigitsOf(code, post);
    assert (code + post)[..|code|] == code;
  }

  /** A spaced-out code inside text without digits is read back exactly. */
  lemma {:induction false} CodeSurvivesPadding(pre: string, spaced: string, post: string, code: string)
    requires forall i | 0 <= i < |pre| :: !('0' <= pre[i] <= '9')
    requires forall i | 0 <= i < |post| :: !('0' <= post[i] <= '9')
    requires 4 <= |code| <= 12 && (forall i | 0 <= i < |code| :: '0' <= code[i] <= '9') && Strip(spaced) == code
    ensures ExtractCode(pre + spaced + post) == code
  {
    StripConcat(pre + spaced, post);
    StripConcat(pre, spaced);
    StripKeepsNoDigits(pre);
    StripKeepsNoDigits(post);
    FirstRunIsCode(Strip(pre), code, Strip(post));
  }

  // ---------------------------------------------------------------- generation and instructions

  function CodeLength(n: int): (len: nat)
    ensures len > 0
  {
    if n <= 0 then FALLBACK_CODE_LEN else n
  }

  /** generateCode: one decimal digit per draw from the random source. */
  method GenerateCode(n: int, draw: nat -> nat) returns (code: string)
    requires forall i :: draw(i) < 10
    ensures |code| == (if n <= 0 then 6 else n) && forall i | 0 <= i < |code| :: '0' <= code[i] <= '9'
    ensures forall i | 0 <= i < |code| :: code[i] as int == '0' as int + draw(i)
  {
    var len := CodeLength(n);
    code := "";
    for i := 0 to len
      invariant |code| == i && AllDigits(code)
      invariant forall k | 0 <= k < i :: code[k] as int == '0' as int + draw(k)
    {
      code := code + [('0' as int + draw(i)) as char];
    }
  }

  /** The action text of an sms verification. */
  function SmsAction(code: string, msisdn: string): string { "Send " + code + " to " + msisdn }

  /** Texting back the whole instruction, whatever digits the number adds, still yields the code. */
  lemma {:induction false} SmsActionCarriesItsCode(code: string, msisdn: string)
    requires IsCode(code)
    ensures ExtractCode(SmsAction(code, msisdn)) == code
    ensures ExtractCode(code) == code
  {
    StripOfDigits(code);
    ActionStripped(code, msisdn);
    var tail := "to" + Strip(msisdn);
    assert tail[0] == 't';
    StripKeepsNoDigits("Send ");
    FirstRunIsCode(Strip("Send "), code, tail);
    CodeSurvivesPadding("", code, "", code);
    assert "" + code + "" == code;
  }

  lemma ActionStripped(code: string, msisdn: string)
    requires Strip(code) == code
    ensures Strip(SmsAction(code, msisdn)) == Strip("Send ") + code + ("to" + Strip(msisdn))
  {
    StripConcat("Send " + code + " to ", msisdn);
    StripConcat("Send " + code, " to ");
    StripConcat("Send ", code);
    ToStripped();
  }

  lemma ToStripped()
    ensures Strip(" to ") == "to"
  {
    assert " to "[1..] == "to ";
    assert "to "[1..] == "o ";
    assert "o "[1..] == " ";
    assert " "[1..] == "";
  }

  // ---------------------------------------------------------------- the scanner

  /** extractCode as the source runs it: strip separators, then scan with a run buffer. */
  method ExtractCodeScan(body: string) returns (r: string)
    ensures r == ExtractCode(body)
  {
    var cleaned := "";
    for i := 0 to |body|
      invariant Strip(body) == cleaned + Strip(body[i..])
    {
      if !IsSeparator(body[i]) {
        cleaned := cleaned + [body[i]];
      }
    }
    assert cleaned + Strip(body[|body|..]) == cleaned;
    r := ScanRuns(cleaned);
  }

  /** The scan over the cleaned text. */
  method ScanRuns(cleaned: string) returns (r: string)
    ensures r == FirstRun(cleaned)
  {
    var run := "";
    assert run + cleaned[0..] == cleaned;
    for i := 0 to |cleaned|
      invariant AllDigits(run)
      invariant FirstRun(cleaned) == FirstRun(run + cleaned[i..])
    {
      var rest := cleaned[i + 1..];
      NextChar(run, cleaned, i);
      if IsDigit(cleaned[i]) {
        run := run + [cleaned[i]];
      } else {
        RunEnds(run, cleaned[i], rest);
        if PlausibleLen(|run|) { return run; }
        run := "";
      }
    }
    assert run + cleaned[|cleaned|..] == run + [];
    EndOfRun(run, []);
    return if PlausibleLen(|run|) then run else "";
  }

  lemma NextChar(run: string, text: string, i: nat)
    requires i < |text|
    ensures run + text[i..] == run + ([text[i]] + text[i + 1..]) == run + [text[i]] + text[i + 1..]
    ensures "" + text[i + 1..] == text[i + 1..]
  {}

  lemma RunEnds(run: string, c: char, rest: string)
    requires AllDigits(run) && !IsDigit(c)
    ensures FirstRun(run + ([c] + rest)) == if PlausibleLen(|run|) then run else FirstRun(rest)
  {
    EndOfRun(run, [c] + rest);
    assert ([c] + rest)[1..] == rest;
  }

  /** At the end of a run the scan either returns it or carries on after it. */
  lemma {:induction false} EndOfRun(run: string, rest: string)
    requires AllDigits(run)
    requires rest == [] || !IsDigit(rest[0])
    ensures PlausibleLen(|run|) ==> FirstRun(run + rest) == run
    ensures !PlausibleLen(|run|) ==>
              FirstRun(run + rest) == if rest == [] then [] else FirstRun(rest[1..])
  {
    LeadingDigitsOf(run, rest);
    assert (run + rest)[..|run|] == run;
    assert (run + rest)[|run|..] == rest;
    if run == [] {
      assert run + rest == rest;
    } else if rest != [] {
      assert LeadingDigits(rest) == 0;
    }
  }
}
