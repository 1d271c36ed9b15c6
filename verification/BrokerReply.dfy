/** How one broker write answers, and how the client classifies the answer. */
module BrokerReply {
  import opened Common

  /**
   What comes back for one signed POST. `Body` is a decoded JSON object: its result code
   when that is a string, and its order transaction reference when that is a string.
   */
  datatype Wire =
    | NoReply            // transport failure, timeout or refused redirect
    | HttpError          // any HTTP status other than 200
    | BadJson            // undecodable body, duplicate keys, non-finite numbers
    | NotAnObject
    | Body(code: Option<string>, reference: Option<string>)

  datatype WriteResult =
    | Acknowledged(reference: string)   // success code and a usable order reference
    | AcknowledgedBlank                 // success code without one
    | Refused                           // BrokerRejected, SessionExpired or LoggedInElsewhere
    | Uncertain                         // OrderOutcomeUnknown

  const SUCCESS_CODE := "000000"
  const SESSION_EXPIRED_CODE := "000102"
  const LOGGED_IN_ELSEWHERE_CODE := "000112"

  predicate IsResultCode(code: string) {
    |code| == 6 && forall k :: 0 <= k < 6 ==> '0' <= code[k] <= '9'
  }

  lemma ResultCodeIsSixDigits(code: string)
    ensures IsResultCode(code) <==> |code| == 6 && forall c :: c in code ==> c in "0123456789"
  {
    if |code| == 6 && forall c :: c in code ==> c in "0123456789" {
      forall k | 0 <= k < 6
        ensures '0' <= code[k] <= '9'
      {
        assert code[k] in code;
      }
    }
  }

  /** `plan_cancel` accepts the reference. */
  predicate UsableReference(reference: string) {
    && |reference| <= 256 && !Blank(reference)
    && forall k :: 0 <= k < |reference| ==> reference[k] as int >= 32
  }

  /** One to 256 characters, no control among them, and not all of them spaces. */
  lemma UsableReferenceMeans(reference: string)
    ensures UsableReference(reference) <==>
      && 1 <= |reference| < 257 && (forall c :: c in reference ==> c >= ' ')
      && exists c :: c in reference && !IsSpace(c)
  {
    if UsableReference(reference) {
      var k :| 0 <= k < |reference| && !IsSpace(reference[k]);
      assert reference[k] in reference;
    }
    if forall c :: c in reference ==> c >= ' ' {
      forall k | 0 <= k < |reference|
        ensures reference[k] as int >= 32
      {
        assert reference[k] in reference;
      }
    }
  }

  /** The tail of `_request` for a write, and the reference check of `submit`. */
  function Classify(wire: Wire): WriteResult {
    match wire
    case NoReply => Uncertain
    case HttpError => Uncertain
    case BadJson => Uncertain
    case NotAnObject => Uncertain
    case Body(None, _) => Uncertain
    case Body(Some(code), reference) =>
      if code == SESSION_EXPIRED_CODE || code == LOGGED_IN_ELSEWHERE_CODE then Refused
      else if code != SUCCESS_CODE then (if IsResultCode(code) then Refused else Uncertain)
      else if reference.Some? && UsableReference(reference.value) then Acknowledged(reference.value)
      else AcknowledgedBlank
  }

  // ---------------------------------------------------------------- what an answer means

  /** The broker says outright that it accepted the request. */
  predicate Accepts(wire: Wire) {
    wire.Body? && wire.code == Some(SUCCESS_CODE)
  }

  /** The broker says outright that it refused the request, by any other result code. */
  predicate Refuses(wire: Wire) {
    wire.Body? && wire.code.Some? && IsResultCode(wire.code.value) && wire.code.value != SUCCESS_CODE
  }

  /** An acceptance that names the order by a reference the service can use. */
  predicate Names(wire: Wire, reference: string) {
    Accepts(wire) && wire.reference == Some(reference) && UsableReference(reference)
  }

  /**
   The assumption about the broker, on its answer alone: a refusal code means it did nothing,
   the success code means it acted. Every other answer, and no answer, leaves both possible.
   */
  predicate Honest(wire: Wire, acted: bool) {
    && (Refuses(wire) ==> !acted)
    && (Accepts(wire) ==> acted)
  }

  /**
   The client calls an outcome unknown exactly when the answer leaves open what an honest
   broker did; a definite result is the true one.
   */
  lemma OnlySettledOutcomesAreDefinite(wire: Wire)
    ensures Classify(wire).Uncertain? <==> Honest(wire, true) && Honest(wire, false)
    ensures Classify(wire).Refused? <==> forall acted :: Honest(wire, acted) ==> !acted
    ensures Classify(wire).Acknowledged? || Classify(wire).AcknowledgedBlank? <==>
      forall acted :: Honest(wire, acted) ==> acted
  {
    ClassifyMeans(wire);
    assert IsResultCode(SUCCESS_CODE);
    if Classify(wire).Refused? || Classify(wire).Uncertain? {
      assert Honest(wire, false);
    }
    if !Classify(wire).Refused? {
      assert Honest(wire, true);
    }
  }

  /** Each result of the client, by the answer it stands for. */
  lemma ClassifyMeans(wire: Wire)
    ensures Classify(wire).Refused? <==> Refuses(wire)
    ensures Classify(wire).Acknowledged? || Classify(wire).AcknowledgedBlank? <==> Accepts(wire)
    ensures forall r :: Classify(wire) == Acknowledged(r) <==> Names(wire, r)
  {
    assert IsResultCode(SESSION_EXPIRED_CODE) && IsResultCode(LOGGED_IN_ELSEWHERE_CODE);
  }
}
