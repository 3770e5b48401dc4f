// validateCpf: treats the CPF, prepares and performs one request to the
// SERPRO service, maps the HTTP status and, only on success, reads the flag
// from the captured body. The HTTP transport is replaced by a Transport
// value that says how each of its steps turns out.

module Middleware {
  import opened Wrappers
  import opened CStrings
  import opened LocalCodes
  import opened Sanitizer
  import opened StatusMapper
  import opened BodyExtractor
  import opened Accumulator

  /** The endpoint; the treated CPF is appended to it. */
  const SERPRO_URL: seq<char> := "https://apigateway.serpro.gov.br/consulta-cpf-df-trial/v1/cpf/"

  /** Size of the URL buffer, terminator included. */
  const MAX_SIZE_URL: nat := 1024

  /**
   * How the transport behaves on one call. `globalInitOk` is consulted only
   * while the one-time global initialisation has not happened yet, and
   * `easyInitOk` only while no handle exists. The three setup results are
   * the options whose failure aborts the call (write function, write data,
   * URL). `chunks` are the body pieces delivered during the request,
   * `performOk` is the request's own result, and `responseCodeOk` says
   * whether the status `httpCode` could be read back.
   */
  datatype Transport = Transport(
    globalInitOk: bool,
    easyInitOk: bool,
    writeFunctionOk: bool,
    writeDataOk: bool,
    urlOk: bool,
    chunks: seq<seq<char>>,
    performOk: bool,
    responseCodeOk: bool,
    httpCode: int)

  /** Body chunks are text without NUL characters. */
  predicate WellFormed(t: Transport)
  {
    forall k :: 0 <= k < |t.chunks| ==> NulFree(t.chunks[k])
  }

  /** The request URL: the endpoint followed by the treated CPF, with room for the terminator. */
  function CompleteUrl(treated: seq<char>): (url: seq<char>)
    requires |treated| <= MAX_SIZE_CPF - 1
    ensures |url| == |SERPRO_URL| + |treated| && |url| + 1 <= MAX_SIZE_URL
    ensures url[..|SERPRO_URL|] == SERPRO_URL && url[|SERPRO_URL|..] == treated
  {
    SERPRO_URL + treated
  }

  /**
   * Whether the setup of the request succeeds, given whether the global
   * initialisation was done and whether a handle existed before the call.
   */
  predicate SetupSucceeds(t: Transport, globalReady: bool, handleReady: bool)
    ensures SetupSucceeds(t, globalReady, handleReady) ==> t.writeFunctionOk && t.writeDataOk && t.urlOk
    ensures globalReady && handleReady ==>
      (SetupSucceeds(t, globalReady, handleReady) <==> t.writeFunctionOk && t.writeDataOk && t.urlOk)
  {
    (globalReady || t.globalInitOk) && (handleReady || t.easyInitOk) &&
    t.writeFunctionOk && t.writeDataOk && t.urlOk
  }

  /** The URL fetched by a call, if the request is performed at all. */
  function RequestedUrl(cpf: seq<char>, t: Transport, globalReady: bool, handleReady: bool)
    : (r: Option<seq<char>>)
    ensures r.Some? <==> Sanitize(cpf).Some? && SetupSucceeds(t, globalReady, handleReady)
    ensures r.Some? ==> |r.value| < MAX_SIZE_URL && r.value == SERPRO_URL + Sanitize(cpf).value
  {
    match Sanitize(cpf)
    case None => None
    case Some(treated) =>
      if SetupSucceeds(t, globalReady, handleReady) then Some(CompleteUrl(treated)) else None
  }

  /** The code validateCpf returns. */
  function Validate(cpf: seq<char>, t: Transport, globalReady: bool, handleReady: bool): (r: int)
    ensures IsLocalCode(r)
    ensures Sanitize(cpf).None? ==> r == CODE_400_INVALID_FORMAT
    ensures Sanitize(cpf).Some? && (!SetupSucceeds(t, globalReady, handleReady) || !t.responseCodeOk) ==>
      r == CODE_500_SERVER_PROBLEM
  {
    if Sanitize(cpf).None? then CODE_400_INVALID_FORMAT
    else if !SetupSucceeds(t, globalReady, handleReady) then CODE_500_SERVER_PROBLEM
    else if !t.responseCodeOk then CODE_500_SERVER_PROBLEM
    else if ConvertHttpCode(t.httpCode) != CODE_200_CPF_OK then ConvertHttpCode(t.httpCode)
    else TreatResponseData(Accumulate(t.chunks))
  }

  /** A CPF that fails treatment gives 400 and no request, whatever the transport would do. */
  lemma InvalidCpfShortCircuits(cpf: seq<char>, t: Transport, globalReady: bool, handleReady: bool)
    requires |cpf| < 1 || |cpf| > MAX_SIZE_CPF - 1 || forall i :: 0 <= i < |cpf| ==> !IsAsciiDigit(cpf[i])
    ensures Validate(cpf, t, globalReady, handleReady) == CODE_400_INVALID_FORMAT
    ensures RequestedUrl(cpf, t, globalReady, handleReady) == None
  {
  }

  /**
   * A fault of the transport after a good treatment gives 500: a failed global
   * init or handle creation, a failed aborting option, or a status that cannot
   * be read back.
   */
  lemma TransportFailureGives500(cpf: seq<char>, t: Transport, globalReady: bool, handleReady: bool)
    requires Sanitize(cpf).Some?
    requires !SetupSucceeds(t, globalReady, handleReady) || !t.responseCodeOk
    ensures Validate(cpf, t, globalReady, handleReady) == CODE_500_SERVER_PROBLEM
  {
  }

  /**
   * Once the status is read back, a mapped status other than success is
   * the result, whatever the body held; a successful one hands the decision
   * to the body.
   */
  lemma StatusDecidesBeforeBody(cpf: seq<char>, t: Transport, globalReady: bool, handleReady: bool)
    requires Sanitize(cpf).Some? && SetupSucceeds(t, globalReady, handleReady) && t.responseCodeOk
    ensures ConvertHttpCode(t.httpCode) != CODE_200_CPF_OK ==>
      forall chunks :: Validate(cpf, t.(chunks := chunks), globalReady, handleReady) ==
        ConvertHttpCode(t.httpCode)
    ensures ConvertHttpCode(t.httpCode) == CODE_200_CPF_OK ==>
      Validate(cpf, t, globalReady, handleReady) == TreatResponseData(Accumulate(t.chunks))
  {
  }

  /**
   * The initialisation results only matter before the first success of
   * each: once done, a failing global init or handle creation is never seen.
   */
  lemma InitialisedStateIgnoresInitFailures(cpf: seq<char>, t: Transport)
    ensures Validate(cpf, t, true, true) ==
      Validate(cpf, t.(globalInitOk := false, easyInitOk := false), true, true)
  {
  }

  /**
   * The request's own result is never consulted: a transfer reported as
   * failed is judged by the status read back afterwards, like a good one.
   */
  lemma PerformResultIgnored(cpf: seq<char>, t: Transport, globalReady: bool, handleReady: bool)
    ensures Validate(cpf, t, globalReady, handleReady) ==
      Validate(cpf, t.(performOk := !t.performOk), globalReady, handleReady)
    ensures RequestedUrl(cpf, t, globalReady, handleReady) ==
      RequestedUrl(cpf, t.(performOk := !t.performOk), globalReady, handleReady)
  {
  }

  /** A 404 from the service is a rejected subject and a 401 a server problem. */
  lemma RemoteStatusScenarios(cpf: seq<char>, t: Transport, globalReady: bool, handleReady: bool)
    requires Sanitize(cpf).Some? && SetupSucceeds(t, globalReady, handleReady) && t.responseCodeOk
    ensures t.httpCode == 404 ==> Validate(cpf, t, globalReady, handleReady) == CODE_403_SUBJECT_REJECTED
    ensures t.httpCode == 401 ==> Validate(cpf, t, globalReady, handleReady) == CODE_500_SERVER_PROBLEM
  {
  }

  /**
   * The scenario where "404.442.820-13" is sent, the service answers 200
   * and the body, delivered in one piece, has the flag '0': the result is 200.
   */
  lemma RegularCpfScenario(t: Transport, head: seq<char>, tail: seq<char>)
    requires SetupSucceeds(t, false, false) && t.responseCodeOk && t.httpCode == 200
    requires forall j :: !OccursAt(head, MARKER, j)
    requires t.chunks == [ProviderBody(head, '0', tail)]
    requires |ProviderBody(head, '0', tail)| < MAX_SIZE_RESPONSE_JSON
    ensures Validate(FORMATTED_CPF, t, false, false) == CODE_200_CPF_OK
    ensures RequestedUrl(FORMATTED_CPF, t, false, false) == Some(SERPRO_URL + "40444282013")
  {
    FormattedCpfExample();
    AccumulateWhenAllFit(t.chunks);
    assert Concat(t.chunks) == ProviderBody(head, '0', tail) by {
      assert t.chunks[..0] == [];
    }
    ProviderFlagDecides(head, '0', tail);
  }

  /**
   * The transport, while performing the request, hands the body to the
   * write callback chunk by chunk.
   */
  method DeliverBody(curlOutput: ResponseBuffer, chunks: seq<seq<char>>)
    requires curlOutput.Valid() && curlOutput.Contents() == []
    requires forall k :: 0 <= k < |chunks| ==> NulFree(chunks[k])
    modifies curlOutput.data
    ensures curlOutput.Valid()
    ensures curlOutput.Contents() == Accumulate(chunks)
  {
    var k := 0;
    while k < |chunks|
      invariant k <= |chunks|
      invariant curlOutput.Valid()
      invariant curlOutput.Contents() == Accumulate(chunks[..k])
    {
      var chunk := chunks[k];
      var consumed := curlOutput.WriteCallback(chunk, |chunk|, 1);
      assert chunks[..k + 1][..k] == chunks[..k];
      k := k + 1;
    }
    assert chunks[..k] == chunks;
  }

  /** The process-wide state of validateCpf and the requests it has made. */
  class CpfValidator {
    /** The static `global` flag: the transport's global initialisation happened. */
    var globalReady: bool
    /** The static handle exists (it is reset, not recreated, on later calls). */
    var handleReady: bool
    /** The URLs of the requests performed so far, oldest first. */
    ghost var requested: seq<seq<char>>

    constructor ()
      ensures !globalReady && !handleReady && requested == []
    {
      globalReady, handleReady, requested := false, false, [];
    }

    method ValidateCpf(cpf: seq<char>, t: Transport) returns (code: int)
      requires NulFree(cpf)
      requires WellFormed(t)
      modifies this
      ensures code == Validate(cpf, t, old(globalReady), old(handleReady))
      ensures globalReady == (old(globalReady) || (Sanitize(cpf).Some? && t.globalInitOk))
      ensures handleReady == (old(handleReady) ||
        (Sanitize(cpf).Some? && (old(globalReady) || t.globalInitOk) && t.easyInitOk))
      ensures requested == old(requested) +
        match RequestedUrl(cpf, t, old(globalReady), old(handleReady))
        case None => []
        case Some(url) => [url]
    {
      var treatedCpf := new char[MAX_SIZE_CPF];
      var ok := TreatCpf(cpf, treatedCpf);
      if !ok {
        return CODE_400_INVALID_FORMAT;
      }

      if !globalReady {
        if !t.globalInitOk {
          return CODE_500_SERVER_PROBLEM;
        }
        globalReady := true;
      }
      if !handleReady {
        if !t.easyInitOk {
          return CODE_500_SERVER_PROBLEM;
        }
        handleReady := true;
      }

      if !t.writeFunctionOk {
        return CODE_500_SERVER_PROBLEM;
      }
      var curlOutput := new ResponseBuffer();
      if !t.writeDataOk {
        return CODE_500_SERVER_PROBLEM;
      }

      var completeUrl := CompleteUrl(CString(treatedCpf[..]));
      if !t.urlOk {
        return CODE_500_SERVER_PROBLEM;
      }

      // The request: its own result is not looked at.
      requested := requested + [completeUrl];
      DeliverBody(curlOutput, t.chunks);

      if !t.responseCodeOk {
        return CODE_500_SERVER_PROBLEM;
      }
      var httpCode := ConvertHttpCode(t.httpCode);
      if httpCode != CODE_200_CPF_OK {
        return httpCode;
      }
      code := TreatResponseData(curlOutput.Contents());
    }
  }
}
