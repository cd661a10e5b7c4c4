/**
 * The earlier negotiation script of src/main.ts. Its module-level variables
 * `isPolite`, `makingOffer` and `ignoreOffer` become the fields of `Page`;
 * `sent` is what it has written to its WebSocket. A message is a record whose
 * `polite`, `description` and `candidate` fields may each be absent, and one
 * message may carry several of them. Offers and answers are made with
 * `setLocalDescription()` without an argument, so no stereo rewrite applies.
 */
module MainPage {
  import opened Wrappers
  import opened Signaling
  import PeerEngine

  datatype Message = Message(polite: Option<bool>, description: Option<SessionDescription>, candidate: Option<string>)

  function PoliteMessage(polite: bool): Message
  {
    Message(Some(polite), None, None)
  }

  function DescriptionMessage(d: SessionDescription): Message
  {
    Message(None, Some(d), None)
  }

  function CandidateMessage(c: string): Message
  {
    Message(None, None, Some(c))
  }

  class Page {
    var isPolite: bool
    var makingOffer: bool
    var ignoreOffer: bool
    var pc: Transport
    var sent: seq<Message>

    constructor ()
      ensures !isPolite && !makingOffer && !ignoreOffer
      ensures pc == INITIAL && sent == []
    {
      isPolite, makingOffer, ignoreOffer := false, false, false;
      pc := INITIAL;
      sent := [];
    }

    /** `pc.onicecandidate` */
    method OnIceCandidate(candidate: string)
      modifies this`sent
      ensures sent == old(sent) + [CandidateMessage(candidate)]
    {
      sent := sent + [CandidateMessage(candidate)];
    }

    /** `pc.onnegotiationneeded` up to its first `await`. */
    method BeginNegotiation()
      modifies this`makingOffer, this`sent
      ensures makingOffer && sent == old(sent) + [PoliteMessage(isPolite)]
    {
      makingOffer := true;
      sent := sent + [PoliteMessage(isPolite)];
    }

    /**
     * The rest of `pc.onnegotiationneeded` once `setLocalDescription()` has
     * settled (`None` if it failed, else the SDP it produced): send the new
     * local description, and in every case lower `makingOffer`.
     */
    method FinishNegotiation(created: Option<string>) returns (outcome: Outcome)
      modifies this`makingOffer, this`pc, this`sent
      ensures !makingOffer
      ensures created.None? ==> pc == old(pc) && sent == old(sent) && outcome == Caught(LocalDescriptionRejected)
      ensures created.Some? ==>
        var d := ImplicitDescription(old(pc), created.value);
        pc == SetLocal(old(pc), d).value && sent == old(sent) + [DescriptionMessage(d)] && outcome == Completed
    {
      if created.None? {
        outcome := Caught(LocalDescriptionRejected);
      } else {
        var d := ImplicitDescription(pc, created.value);
        pc := SetLocal(pc, d).value;
        sent := sent + [DescriptionMessage(d)];
        outcome := Completed;
      }
      makingOffer := false;
    }

    /** `pc.onnegotiationneeded` run to its end: `{polite}` goes out before `{description}`. */
    method OnNegotiationNeeded(created: Option<string>) returns (outcome: Outcome)
      modifies this`makingOffer, this`pc, this`sent
      ensures !makingOffer
      ensures outcome == Completed <==> created.Some?
      ensures created.Some? ==>
        var d := ImplicitDescription(old(pc), created.value);
        pc == SetLocal(old(pc), d).value && sent == old(sent) + [PoliteMessage(isPolite), DescriptionMessage(d)]
      ensures created.None? ==> pc == old(pc) && sent == old(sent) + [PoliteMessage(isPolite)]
    {
      BeginNegotiation();
      outcome := FinishNegotiation(created);
    }

    /**
     * `ws.onmessage`: the `polite` field first, then the description (an
     * ignored offer ends the handler before the candidate), then the
     * candidate. `localSdp` is what `setLocalDescription()` produces when an
     * offer is answered (`None` if it fails, which escapes the handler with
     * the offer already applied); `candidateAccepted` whether
     * `addIceCandidate` succeeds. A refused candidate is swallowed exactly
     * when `ignoreOffer`, which outlives the message, is set.
     */
    method OnMessage(message: Message, localSdp: Option<string>, candidateAccepted: bool) returns (outcome: Outcome)
      modifies this`isPolite, this`ignoreOffer, this`pc, this`sent
      ensures isPolite == (if message.polite.Some? then !message.polite.value else old(isPolite))
      ensures message.description.None? ==> ignoreOffer == old(ignoreOffer) && pc == old(pc) && sent == old(sent)
      ensures message.description.Some? ==>
        var d := message.description.value;
        && ignoreOffer == IgnoreOffer(isPolite, makingOffer, old(pc), d)
        && (ignoreOffer ==> pc == old(pc) && sent == old(sent) && outcome == OfferIgnored)
        && (!ignoreOffer && SetRemote(old(pc), d).None? ==>
              pc == old(pc) && sent == old(sent) && outcome == Threw(RemoteDescriptionRejected))
        && (!ignoreOffer && d.kind == Answer && SetRemote(old(pc), d).Some? ==>
              pc == SetRemote(old(pc), d).value && sent == old(sent))
        && (!ignoreOffer && d.kind == Offer && SetRemote(old(pc), d).Some? && localSdp.None? ==>
              pc == SetRemote(old(pc), d).value && sent == old(sent) && outcome == Threw(LocalDescriptionRejected))
        && (!ignoreOffer && d.kind == Offer && localSdp.Some? ==>
              var answer := SessionDescription(Answer, localSdp.value);
              pc == Transport(Stable, Some(answer), Some(d)) && sent == old(sent) + [DescriptionMessage(answer)])
      ensures message.description.None? ||
              (!ignoreOffer && SetRemote(old(pc), message.description.value).Some? &&
               (message.description.value.kind == Answer || localSdp.Some?)) ==>
        outcome == (if message.candidate.Some? && !candidateAccepted && !ignoreOffer then Threw(CandidateRejected)
                    else Completed)
    {
      if message.polite.Some? {
        isPolite := !message.polite.value;
      }

      if message.description.Some? {
        var d := message.description.value;
        ignoreOffer := IgnoreOffer(isPolite, makingOffer, pc, d);
        if ignoreOffer {
          return OfferIgnored;
        }
        var remote := SetRemote(pc, d);
        if remote.None? {
          return Threw(RemoteDescriptionRejected);
        }
        pc := remote.value;
        if d.kind == Offer {
          if localSdp.None? {
            return Threw(LocalDescriptionRejected);
          }
          var answer := ImplicitDescription(pc, localSdp.value);
          pc := SetLocal(pc, answer).value;
          sent := sent + [DescriptionMessage(answer)];
        }
      }

      outcome := Completed;
      if message.candidate.Some? && !candidateAccepted && !ignoreOffer {
        outcome := Threw(CandidateRejected);
      }
    }
  }

  /**
   * As in the class-based engine, two fresh pages that each start
   * negotiating before receiving the other's bit both become polite.
   */
  method CrossedPoliteness() returns (aPolite: bool, bPolite: bool)
    ensures aPolite && bPolite
  {
    var a := new Page();
    var b := new Page();
    a.BeginNegotiation();
    b.BeginNegotiation();
    var _ := b.OnMessage(a.sent[0], Some(""), true);
    var _ := a.OnMessage(b.sent[0], Some(""), true);
    aPolite, bPolite := a.isPolite, b.isPolite;
  }

  /**
   * An impolite side with its own offer pending ignores an incoming offer and
   * then receives a candidate of that offer, which the browser refuses. The
   * page remembers the ignored offer and swallows the failure; the class-based
   * engine forgets it after the offer's message and rethrows.
   */
  method CandidateOfIgnoredOffer(ownOffer: string, theirOffer: string, candidate: string)
    returns (pageOffer: Outcome, pageCandidate: Outcome, engineOffer: Outcome, engineCandidate: Outcome)
    ensures pageOffer == OfferIgnored && pageCandidate == Completed
    ensures engineOffer == OfferIgnored && engineCandidate == Threw(CandidateRejected)
  {
    var page := new Page();
    var _ := page.OnNegotiationNeeded(Some(ownOffer));
    pageOffer := page.OnMessage(DescriptionMessage(SessionDescription(Offer, theirOffer)), Some(""), true);
    pageCandidate := page.OnMessage(CandidateMessage(candidate), Some(""), false);

    var engine := new PeerEngine.PeerConnection();
    var _ := engine.OnNegotiationNeeded(Some(ownOffer));
    engineOffer := engine.OnMessage(PeerEngine.Description(SessionDescription(Offer, theirOffer)), Some(""), true);
    engineCandidate := engine.OnMessage(PeerEngine.Candidate(candidate), Some(""), false);
  }

  /**
   * One message carrying an offer that is ignored and a candidate: the
   * handler returns before the candidate, so even a candidate the browser
   * would refuse raises nothing. A later answer clears `ignoreOffer` again.
   */
  method CombinedMessage(ownOffer: string, theirOffer: string, answer: string, candidate: string)
    returns (combined: Outcome, ignoredAfterOffer: bool, ignoredAfterAnswer: bool, lateCandidate: Outcome)
    ensures combined == OfferIgnored && ignoredAfterOffer
    ensures !ignoredAfterAnswer && lateCandidate == Threw(CandidateRejected)
  {
    var page := new Page();
    var _ := page.OnNegotiationNeeded(Some(ownOffer));
    combined := page.OnMessage(Message(None, Some(SessionDescription(Offer, theirOffer)), Some(candidate)), Some(""), false);
    ignoredAfterOffer := page.ignoreOffer;
    var _ := page.OnMessage(DescriptionMessage(SessionDescription(Answer, answer)), Some(""), true);
    ignoredAfterAnswer := page.ignoreOffer;
    lateCandidate := page.OnMessage(CandidateMessage(candidate), Some(""), false);
  }
}
