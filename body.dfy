// treatResponseData: a positional scan of the JSON body returned by the
// SERPRO service. It finds the first "codigo" and reads the character nine
// places after the start of that marker as the regularity flag.

module BodyExtractor {
  import opened Wrappers
  import opened LocalCodes

  /** The field name looked for in the body. */
  const MARKER: seq<char> := "codigo"

  /** Offset of the flag character from the start of the marker. */
  const FLAG_OFFSET: nat := 9

  /** Characters that must remain from the marker on for the flag to be read. */
  const MIN_TAIL: nat := 10

  predicate OccursAt(s: seq<char>, m: seq<char>, i: int)
  {
    0 <= i && i + |m| <= |s| && s[i..i + |m|] == m
  }

  /** The least index at or after `from` where `m` occurs in `s`, if any. */
  function FindFrom(s: seq<char>, m: seq<char>, from: nat): (r: Option<nat>)
    requires from <= |s|
    ensures r.Some? ==> from <= r.value && OccursAt(s, m, r.value)
    ensures r.Some? ==> forall j :: from <= j < r.value ==> !OccursAt(s, m, j)
    ensures r.None? ==> forall j :: from <= j ==> !OccursAt(s, m, j)
    decreases |s| - from
  {
    if OccursAt(s, m, from) then Some(from)
    else if from == |s| then None
    else FindFrom(s, m, from + 1)
  }

  /** C's `strstr`, as the index of the first occurrence of `m` in `s`. */
  function StrStr(s: seq<char>, m: seq<char>): (r: Option<nat>)
    ensures r.Some? ==> OccursAt(s, m, r.value)
    ensures r.Some? ==> forall j :: 0 <= j < r.value ==> !OccursAt(s, m, j)
    ensures r.None? <==> forall j :: !OccursAt(s, m, j)
  {
    FindFrom(s, m, 0)
  }

  /**
   * 500 when the marker is missing or fewer than MIN_TAIL characters remain
   * from its first occurrence on; otherwise 200 when the flag is '0' and 403
   * for any other flag. The result is never 400.
   */
  function TreatResponseData(body: seq<char>): (r: int)
    ensures IsLocalCode(r) && r != CODE_400_INVALID_FORMAT
    ensures r == CODE_500_SERVER_PROBLEM <==>
      (forall j :: !OccursAt(body, MARKER, j)) ||
      |body| - StrStr(body, MARKER).value < MIN_TAIL
    ensures r != CODE_500_SERVER_PROBLEM ==>
      var p := StrStr(body, MARKER).value;
      p + MIN_TAIL <= |body| &&
      (r == CODE_200_CPF_OK <==> body[p + FLAG_OFFSET] == '0')
  {
    var pos := StrStr(body, MARKER);
    if pos.None? || |body| - pos.value < MIN_TAIL then CODE_500_SERVER_PROBLEM
    else if body[pos.value + FLAG_OFFSET] != '0' then CODE_403_SUBJECT_REJECTED
    else CODE_200_CPF_OK
  }

  /**
   * The layout the provider sends: some text, the marker, the three
   * characters `":"` and then the flag.
   */
  function ProviderBody(head: seq<char>, flag: char, tail: seq<char>): seq<char>
  {
    head + MARKER + "\":\"" + [flag] + tail
  }

  /**
   * A marker placed after text that does not hold it is the first one, even
   * counting occurrences that would straddle the join: 'c' appears in the
   * marker only at its start.
   */
  lemma {:induction false} FirstMarkerAfterClearHead(head: seq<char>, rest: seq<char>)
    requires forall j :: !OccursAt(head, MARKER, j)
    ensures StrStr(head + MARKER + rest, MARKER) == Some(|head|)
  {
    var body := head + MARKER + rest;
    assert OccursAt(body, MARKER, |head|) by {
      assert body[|head|..|head| + |MARKER|] == MARKER;
    }
    forall j | 0 <= j < |head|
      ensures !OccursAt(body, MARKER, j)
    {
      if j + |MARKER| <= |head| {
        // a window wholly inside the head
        assert head[j..j + |MARKER|] == body[j..j + |MARKER|];
        assert !OccursAt(head, MARKER, j);
      } else if j + |MARKER| <= |body| {
        // a window that holds the marker's leading 'c' at a later position
        var k := |head| - j;
        assert body[j..j + |MARKER|][k] == body[|head|] == 'c';
        assert MARKER[k] != 'c';
      }
    }
  }

  /** On a body laid out as the provider sends it, the flag alone decides. */
  lemma ProviderFlagDecides(head: seq<char>, flag: char, tail: seq<char>)
    requires forall j :: !OccursAt(head, MARKER, j)
    ensures TreatResponseData(ProviderBody(head, flag, tail)) ==
      if flag == '0' then CODE_200_CPF_OK else CODE_403_SUBJECT_REJECTED
  {
    var rest := "\":\"" + [flag] + tail;
    assert ProviderBody(head, flag, tail) == head + MARKER + rest;
    FirstMarkerAfterClearHead(head, rest);
    assert (head + MARKER + rest)[|head| + FLAG_OFFSET] == flag;
  }

  /** Whether some 'c' at index `from` or later in `s` is directly followed by 'o'. */
  predicate HasCoPairFrom(s: seq<char>, from: nat)
    decreases |s| - from
  {
    from + 1 < |s| && ((s[from] == 'c' && s[from + 1] == 'o') || HasCoPairFrom(s, from + 1))
  }

  /** Text in which no 'c' is directly followed by 'o' cannot hold the marker. */
  lemma {:induction false} NoMarkerWithoutCo(s: seq<char>, from: nat)
    requires !HasCoPairFrom(s, from)
    ensures forall j :: from <= j ==> !OccursAt(s, MARKER, j)
    decreases |s| - from
  {
    if from + 1 < |s| {
      NoMarkerWithoutCo(s, from + 1);
      if from + |MARKER| <= |s| {
        assert s[from..from + |MARKER|][0] == s[from];
        assert s[from..from + |MARKER|][1] == s[from + 1];
      }
    }
  }

  /** The text before the marker in a minimal provider body. */
  const EXAMPLE_HEAD: seq<char> := "{\"situacao\":{\""

  lemma ExampleHeadIsClear()
    ensures forall j :: !OccursAt(EXAMPLE_HEAD, MARKER, j)
  {
    assert !HasCoPairFrom(EXAMPLE_HEAD, 0);
    NoMarkerWithoutCo(EXAMPLE_HEAD, 0);
  }

  /** A minimal provider body with flag '0' is accepted. */
  lemma RegularExampleBody()
    ensures TreatResponseData("{\"situacao\":{\"codigo\":\"0\"}}") == CODE_200_CPF_OK
  {
    ExampleHeadIsClear();
    ProviderFlagDecides(EXAMPLE_HEAD, '0', "\"}}");
    assert ProviderBody(EXAMPLE_HEAD, '0', "\"}}") == "{\"situacao\":{\"codigo\":\"0\"}}";
  }

  /** A minimal provider body with flag '1' is rejected. */
  lemma IrregularExampleBody()
    ensures TreatResponseData("{\"situacao\":{\"codigo\":\"1\"}}") == CODE_403_SUBJECT_REJECTED
  {
    ExampleHeadIsClear();
    ProviderFlagDecides(EXAMPLE_HEAD, '1', "\"}}");
    assert ProviderBody(EXAMPLE_HEAD, '1', "\"}}") == "{\"situacao\":{\"codigo\":\"1\"}}";
  }

  /** A body without the field is a server problem. */
  lemma MissingFieldExampleBody()
    ensures TreatResponseData("{\"situacao\":{}}") == CODE_500_SERVER_PROBLEM
  {
    assert !HasCoPairFrom("{\"situacao\":{}}", 0);
    NoMarkerWithoutCo("{\"situacao\":{}}", 0);
  }
}
