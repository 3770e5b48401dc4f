// treatCpf: keeps only the ASCII digits of the raw CPF text, after checking
// its length, and writes them as a NUL-terminated string into the caller's
// buffer of MAX_SIZE_CPF characters.

module Sanitizer {
  import opened Wrappers
  import opened CStrings

  /** Size of the caller's buffer for the treated CPF, terminator included. */
  const MAX_SIZE_CPF: nat := 128

  predicate IsAsciiDigit(c: char)
  {
    '0' <= c <= '9'
  }

  /** The ASCII digits of `s`, in the order they occur in `s`. */
  function Digits(s: seq<char>): (r: seq<char>)
    ensures |r| <= |s|
    ensures forall k :: 0 <= k < |r| ==> IsAsciiDigit(r[k])
  {
    if s == [] then []
    else Digits(s[..|s| - 1]) + (if IsAsciiDigit(s[|s| - 1]) then [s[|s| - 1]] else [])
  }

  /** The indices of `s` that hold an ASCII digit, in increasing order. */
  function DigitPositions(s: seq<char>): (p: seq<nat>)
    ensures forall k :: 0 <= k < |p| ==> p[k] < |s| && IsAsciiDigit(s[p[k]])
    ensures forall k, l :: 0 <= k < l < |p| ==> p[k] < p[l]
    ensures forall i :: 0 <= i < |s| && IsAsciiDigit(s[i]) ==> i in p
  {
    if s == [] then []
    else
      var q := DigitPositions(s[..|s| - 1]);
      assert forall i :: 0 <= i < |s| - 1 ==> s[..|s| - 1][i] == s[i];
      q + (if IsAsciiDigit(s[|s| - 1]) then [|s| - 1] else [])
  }

  /**
   * The result of treatCpf: None (the C NULL) when the text is empty, longer
   * than MAX_SIZE_CPF - 1 characters, or holds no digit; otherwise its digits.
   */
  function Sanitize(cpf: seq<char>): (r: Option<seq<char>>)
    ensures r.None? <==>
      (|cpf| < 1 || |cpf| > MAX_SIZE_CPF - 1 ||
       forall i :: 0 <= i < |cpf| ==> !IsAsciiDigit(cpf[i]))
    ensures r.Some? ==> r.value == Digits(cpf)
    ensures r.Some? ==> 1 <= |r.value| <= |cpf| <= MAX_SIZE_CPF - 1
  {
    DigitsEmptyIff(cpf);
    if |cpf| < 1 || |cpf| > MAX_SIZE_CPF - 1 then None
    else
      var d := Digits(cpf);
      if |d| < 1 then None else Some(d)
  }

  /** No digits are kept exactly when the text holds no digit. */
  lemma {:induction false} DigitsEmptyIff(s: seq<char>)
    ensures Digits(s) == [] <==> forall i :: 0 <= i < |s| ==> !IsAsciiDigit(s[i])
  {
    if s != [] {
      var init := s[..|s| - 1];
      DigitsEmptyIff(init);
      assert forall i :: 0 <= i < |init| ==> init[i] == s[i];
    }
  }

  /** The digits kept are exactly the characters at the digit positions, in order. */
  lemma {:induction false} DigitsAtPositions(s: seq<char>)
    ensures |Digits(s)| == |DigitPositions(s)|
    ensures forall k :: 0 <= k < |Digits(s)| ==> Digits(s)[k] == s[DigitPositions(s)[k]]
  {
    if s != [] {
      var init := s[..|s| - 1];
      DigitsAtPositions(init);
      assert forall i :: 0 <= i < |init| ==> init[i] == s[i];
    }
  }

  /** Filtering distributes over concatenation: no digit is reordered across a split. */
  lemma {:induction false} DigitsConcat(a: seq<char>, b: seq<char>)
    ensures Digits(a + b) == Digits(a) + Digits(b)
  {
    if b == [] {
      assert a + b == a;
    } else {
      var b' := b[..|b| - 1];
      DigitsConcat(a, b');
      assert (a + b)[..|a + b| - 1] == a + b';
    }
  }

  /** A text made only of digits is kept whole. */
  lemma {:induction false} DigitsOfDigitString(s: seq<char>)
    requires forall i :: 0 <= i < |s| ==> IsAsciiDigit(s[i])
    ensures Digits(s) == s
  {
    if s != [] {
      var init := s[..|s| - 1];
      assert forall i :: 0 <= i < |init| ==> init[i] == s[i];
      DigitsOfDigitString(init);
    }
  }

  /** Treating an already treated CPF gives it back unchanged. */
  lemma SanitizeIdempotent(cpf: seq<char>)
    requires Sanitize(cpf).Some?
    ensures Sanitize(Sanitize(cpf).value) == Sanitize(cpf)
  {
    DigitsOfDigitString(Digits(cpf));
  }

  /** One more character of input adds at most that character to the digits kept. */
  lemma DigitsStep(s: seq<char>, k: nat)
    requires k < |s|
    ensures Digits(s[..k + 1]) ==
      Digits(s[..k]) + (if IsAsciiDigit(s[k]) then [s[k]] else [])
  {
    assert s[..k + 1][..k] == s[..k];
  }

  /** A CPF written with the usual punctuation. */
  const FORMATTED_CPF: seq<char> := "404.442.820-13"

  lemma FormattedCpfDigitsHead()
    ensures Digits(FORMATTED_CPF[..7]) == "404442"
  {
    assert Digits(FORMATTED_CPF[..0]) == [];
    DigitsStep(FORMATTED_CPF, 0); assert Digits(FORMATTED_CPF[..1]) == "4";
    DigitsStep(FORMATTED_CPF, 1); assert Digits(FORMATTED_CPF[..2]) == "40";
    DigitsStep(FORMATTED_CPF, 2); assert Digits(FORMATTED_CPF[..3]) == "404";
    DigitsStep(FORMATTED_CPF, 3); assert Digits(FORMATTED_CPF[..4]) == "404";
    DigitsStep(FORMATTED_CPF, 4); assert Digits(FORMATTED_CPF[..5]) == "4044";
    DigitsStep(FORMATTED_CPF, 5); assert Digits(FORMATTED_CPF[..6]) == "40444";
    DigitsStep(FORMATTED_CPF, 6); assert Digits(FORMATTED_CPF[..7]) == "404442";
  }

  lemma FormattedCpfDigits()
    ensures Digits(FORMATTED_CPF) == "40444282013"
  {
    FormattedCpfDigitsHead();
    DigitsStep(FORMATTED_CPF, 7); assert Digits(FORMATTED_CPF[..8]) == "404442";
    DigitsStep(FORMATTED_CPF, 8); assert Digits(FORMATTED_CPF[..9]) == "4044428";
    DigitsStep(FORMATTED_CPF, 9); assert Digits(FORMATTED_CPF[..10]) == "40444282";
    DigitsStep(FORMATTED_CPF, 10); assert Digits(FORMATTED_CPF[..11]) == "404442820";
    DigitsStep(FORMATTED_CPF, 11); assert Digits(FORMATTED_CPF[..12]) == "404442820";
    DigitsStep(FORMATTED_CPF, 12); assert Digits(FORMATTED_CPF[..13]) == "4044428201";
    DigitsStep(FORMATTED_CPF, 13); assert Digits(FORMATTED_CPF[..14]) == "40444282013";
    assert FORMATTED_CPF[..14] == FORMATTED_CPF;
  }

  /** The formatted CPF "404.442.820-13" is treated to its eleven digits. */
  lemma FormattedCpfExample()
    ensures Sanitize(FORMATTED_CPF) == Some("40444282013")
  {
    FormattedCpfDigits();
  }

  /**
   * treatCpf, writing into the caller's buffer `treatedCpf`. On a length
   * failure nothing is written; otherwise the digits are copied to the front
   * of the buffer and terminated with a NUL, and `ok` reports whether any
   * digit was found (the C returns the buffer or NULL).
   */
  method TreatCpf(cpf: seq<char>, treatedCpf: array<char>) returns (ok: bool)
    requires NulFree(cpf)
    requires treatedCpf.Length == MAX_SIZE_CPF
    modifies treatedCpf
    ensures ok <==> Sanitize(cpf).Some?
    ensures ok ==> CString(treatedCpf[..]) == Sanitize(cpf).value
    ensures (|cpf| < 1 || |cpf| > MAX_SIZE_CPF - 1) ==> treatedCpf[..] == old(treatedCpf[..])
    ensures 1 <= |cpf| <= MAX_SIZE_CPF - 1 ==>
      var n := |Digits(cpf)|;
      treatedCpf[..n] == Digits(cpf) && treatedCpf[n] == NUL &&
      treatedCpf[n + 1..] == old(treatedCpf[n + 1..])
  {
    var len := |cpf|;
    if len < 1 {
      return false;
    } else if len > MAX_SIZE_CPF - 1 {
      return false;
    }
    var pos := 0;
    for i := 0 to len
      invariant pos <= i
      invariant treatedCpf[..pos] == Digits(cpf[..i])
      invariant treatedCpf[pos..] == old(treatedCpf[pos..])
    {
      assert cpf[..i + 1][..i] == cpf[..i];
      if IsAsciiDigit(cpf[i]) {
        treatedCpf[pos] := cpf[i];
        pos := pos + 1;
      }
    }
    assert cpf[..len] == cpf;
    treatedCpf[pos] := NUL;
    assert treatedCpf[..][..pos] == Digits(cpf);
    StrLenOfTerminated(treatedCpf[..], pos);
    ok := StrLen(treatedCpf[..]) >= 1;
  }
}
