/**
 * The `PeerConnection` class of src/webrtc.ts: the negotiation engine each
 * browser runs. Its fields are the flags the handlers update; `sent` is what
 * it has written to its signaling WebSocket, in order, and `events` what it
 * has dispatched to the page. Results of the browser's asynchronous calls
 * (the SDP text `createOffer`/`createAnswer` produce, whether
 * `addIceCandidate` accepts a candidate) are parameters.
 *
 * Each message handler is one atomic step. `_onNegotiationNeeded` is split at
 * its first `await`, so that messages handled while an offer is being made
 * see `makingOffer` set.
 */
module PeerEngine {
  import opened Wrappers
  import opened Signaling
  import JsString

  datatype PeerMessage =
    | Connected
    | Polite(polite: bool)
    | Description(description: SessionDescription)
    | Candidate(candidate: string)

  datatype AppEvent = Connect | Disconnect

  const STEREO_TOKEN := "useinbandfec=1"
  const STEREO_SUFFIX := "; stereo=1"

  /**
   * The stereo hack: every `useinbandfec=1` becomes `useinbandfec=1; stereo=1`.
   * The first occurrence gets the suffix, the text before it is kept, and
   * undoing the rewrite gives the SDP back.
   */
  function EnableStereo(sdp: string): (r: string)
    ensures var i := JsString.IndexOf(sdp, STEREO_TOKEN);
      i >= 0 ==> JsString.OccursAt(r, STEREO_TOKEN + STEREO_SUFFIX, i) && r[..i] == sdp[..i]
    ensures !JsString.Contains(sdp, STEREO_TOKEN) ==> r == sdp
    ensures JsString.ReplaceAll(r, STEREO_TOKEN + STEREO_SUFFIX, STEREO_TOKEN) == sdp
  {
    var r := JsString.ReplaceAll(sdp, STEREO_TOKEN, STEREO_TOKEN + STEREO_SUFFIX);
    JsString.ReplaceAllInverse(sdp, STEREO_TOKEN, STEREO_SUFFIX);
    JsString.ReplaceAllAbsent(sdp, STEREO_TOKEN, STEREO_TOKEN + STEREO_SUFFIX);
    var i := JsString.IndexOf(sdp, STEREO_TOKEN);
    if i >= 0 then
      JsString.ReplaceAllAtFirst(sdp, STEREO_TOKEN, STEREO_TOKEN + STEREO_SUFFIX);
      JsString.SplicedAt(sdp[..i], STEREO_TOKEN + STEREO_SUFFIX, JsString.ReplaceAll(sdp[i + |STEREO_TOKEN|..], STEREO_TOKEN, STEREO_TOKEN + STEREO_SUFFIX), r);
      r
    else
      r
  }

  /**
   * The rewrite of the rest of the SDP continues after the first rewritten
   * token: `replaceAll` as the ECMAScript algorithm states it, by repeated
   * `indexOf`.
   */
  lemma EnableStereoAtFirst(sdp: string)
    requires JsString.IndexOf(sdp, STEREO_TOKEN) >= 0
    ensures var i := JsString.IndexOf(sdp, STEREO_TOKEN);
      EnableStereo(sdp) == sdp[..i] + (STEREO_TOKEN + STEREO_SUFFIX) + EnableStereo(sdp[i + |STEREO_TOKEN|..])
  {
    var rep := STEREO_TOKEN + STEREO_SUFFIX;
    var rest := sdp[JsString.IndexOf(sdp, STEREO_TOKEN) + |STEREO_TOKEN|..];
    JsString.ReplaceAllAtFirst(sdp, STEREO_TOKEN, rep);
    assert EnableStereo(sdp) == JsString.ReplaceAll(sdp, STEREO_TOKEN, rep);
    assert EnableStereo(rest) == JsString.ReplaceAll(rest, STEREO_TOKEN, rep);
  }

  /** The rewrite loses nothing: different SDP bodies stay different. */
  lemma EnableStereoInjective(a: string, b: string)
    requires EnableStereo(a) == EnableStereo(b)
    ensures a == b
  {
  }

  class PeerConnection {
    var connected: bool
    var polite: bool
    var makingOffer: bool
    var pc: Transport
    var sent: seq<PeerMessage>
    var events: seq<AppEvent>

    constructor ()
      ensures !connected && !polite && !makingOffer
      ensures pc == INITIAL && sent == [] && events == []
    {
      connected, polite, makingOffer := false, false, false;
      pc := INITIAL;
      sent, events := [], [];
    }

    /** `_onOpen`: announce ourselves. */
    method OnOpen()
      modifies this`sent
      ensures sent == old(sent) + [Connected]
    {
      sent := sent + [Connected];
    }

    /** `_onClose` */
    method OnClose()
      modifies this`connected, this`events
      ensures !connected && events == old(events) + [Disconnect]
    {
      connected := false;
      events := events + [Disconnect];
    }

    /** `_onIceCandidate`: a locally found candidate goes straight to the other peer. */
    method OnIceCandidate(candidate: string)
      modifies this`sent
      ensures sent == old(sent) + [Candidate(candidate)]
    {
      sent := sent + [Candidate(candidate)];
    }

    /** `_onNegotiationNeeded` up to its first `await`: raise `makingOffer` and advertise our bit. */
    method BeginNegotiation()
      modifies this`makingOffer, this`sent
      ensures makingOffer && sent == old(sent) + [Polite(polite)]
    {
      makingOffer := true;
      sent := sent + [Polite(polite)];
    }

    /**
     * The rest of `_onNegotiationNeeded`, once `createOffer` has settled
     * (`None` if it failed): rewrite and commit the offer, send it, and in
     * every case lower `makingOffer`.
     */
    method FinishNegotiation(created: Option<string>) returns (outcome: Outcome)
      modifies this`makingOffer, this`pc, this`sent
      ensures !makingOffer
      ensures created.None? ==> pc == old(pc) && sent == old(sent) && outcome == Caught(OfferNotCreated)
      ensures created.Some? ==>
        var offer := SessionDescription(Offer, EnableStereo(created.value));
        && (SetLocal(old(pc), offer).None? ==>
              pc == old(pc) && sent == old(sent) && outcome == Caught(LocalDescriptionRejected))
        && (SetLocal(old(pc), offer).Some? ==>
              pc == SetLocal(old(pc), offer).value && sent == old(sent) + [Description(offer)] &&
              outcome == Completed)
    {
      if created.None? {
        outcome := Caught(OfferNotCreated);
      } else {
        var offer := SessionDescription(Offer, EnableStereo(created.value));
        var applied := SetLocal(pc, offer);
        if applied.None? {
          outcome := Caught(LocalDescriptionRejected);
        } else {
          pc := applied.value;
          sent := sent + [Description(offer)];
          outcome := Completed;
        }
      }
      makingOffer := false;
    }

    /** `_onNegotiationNeeded` run to its end with nothing in between: `polite` goes out before the offer. */
    method OnNegotiationNeeded(created: Option<string>) returns (outcome: Outcome)
      modifies this`makingOffer, this`pc, this`sent
      ensures !makingOffer
      ensures outcome == Completed <==>
        created.Some? && SetLocal(old(pc), SessionDescription(Offer, EnableStereo(created.value))).Some?
      ensures outcome == Completed ==>
        var offer := SessionDescription(Offer, EnableStereo(created.value));
        && pc == SetLocal(old(pc), offer).value
        && sent == old(sent) + [Polite(polite), Description(offer)]
      ensures outcome != Completed ==> outcome.Caught? && pc == old(pc) && sent == old(sent) + [Polite(polite)]
    {
      BeginNegotiation();
      outcome := FinishNegotiation(created);
    }

    /**
     * `_onMessage`. `answerSdp` is what `createAnswer` yields if an offer is
     * answered (`None` if it fails, which escapes the handler after the offer
     * was applied); `candidateAccepted` whether `addIceCandidate` succeeds. The
     * `ignoreOffer` of this handler is a fresh local, false for every
     * message that is not a description.
     */
    method OnMessage(message: PeerMessage, answerSdp: Option<string>, candidateAccepted: bool) returns (outcome: Outcome)
      modifies this`connected, this`polite, this`pc, this`sent, this`events
      ensures message.Connected? ==>
        && connected && events == old(events) + [Connect]
        && sent == old(sent) + (if old(connected) then [] else [Connected])
        && polite == old(polite) && pc == old(pc) && outcome == Completed
      ensures message.Polite? ==>
        && polite == !message.polite
        && connected == old(connected) && pc == old(pc) && sent == old(sent) && events == old(events)
        && outcome == Completed
      ensures message.Description? ==>
        var d := message.description;
        && connected == old(connected) && polite == old(polite) && events == old(events)
        && (IgnoreOffer(polite, makingOffer, old(pc), d) ==>
              pc == old(pc) && sent == old(sent) && outcome == OfferIgnored)
        && (!IgnoreOffer(polite, makingOffer, old(pc), d) && SetRemote(old(pc), d).None? ==>
              pc == old(pc) && sent == old(sent) && outcome == Threw(RemoteDescriptionRejected))
        && (!IgnoreOffer(polite, makingOffer, old(pc), d) && d.kind == Answer && SetRemote(old(pc), d).Some? ==>
              pc == SetRemote(old(pc), d).value && sent == old(sent) && outcome == Completed)
        && (!IgnoreOffer(polite, makingOffer, old(pc), d) && d.kind == Offer && answerSdp.None? ==>
              pc == SetRemote(old(pc), d).value && sent == old(sent) && outcome == Threw(AnswerNotCreated))
        && (!IgnoreOffer(polite, makingOffer, old(pc), d) && d.kind == Offer && answerSdp.Some? ==>
              var answer := SessionDescription(Answer, EnableStereo(answerSdp.value));
              && pc == Transport(Stable, Some(answer), Some(d))
              && sent == old(sent) + [Description(answer)] && outcome == Completed)
      ensures message.Candidate? ==>
        && connected == old(connected) && polite == old(polite) && pc == old(pc)
        && sent == old(sent) && events == old(events)
        && outcome == (if candidateAccepted then Completed else Threw(CandidateRejected))
    {
      var ignoreOffer := false;
      match message
      case Connected =>
        if !connected {
          sent := sent + [Connected];
        }
        connected := true;
        events := events + [Connect];
        outcome := Completed;
      case Polite(p) =>
        polite := !p;
        outcome := Completed;
      case Description(d) =>
        ignoreOffer := IgnoreOffer(polite, makingOffer, pc, d);
        if ignoreOffer {
          return OfferIgnored;
        }
        var remote := SetRemote(pc, d);
        if remote.None? {
          return Threw(RemoteDescriptionRejected);
        }
        pc := remote.value;
        if d.kind == Offer {
          if answerSdp.None? {
            return Threw(AnswerNotCreated);
          }
          var answer := SessionDescription(Answer, EnableStereo(answerSdp.value));
          pc := SetLocal(pc, answer).value;
          sent := sent + [Description(answer)];
        }
        outcome := Completed;
      case Candidate(_) =>
        if candidateAccepted {
          outcome := Completed;
        } else if !ignoreOffer {
          outcome := Threw(CandidateRejected);
        } else {
          outcome := Completed;
        }
    }
  }

  /**
   * Both sockets open before either hears from the other: each answers the
   * other's `connected` once and ignores the echo, and both end connected
   * after sending exactly two `connected` messages.
   */
  method SimultaneousOpen() returns (aSent: seq<PeerMessage>, bSent: seq<PeerMessage>, bothConnected: bool)
    ensures aSent == [Connected, Connected] && bSent == [Connected, Connected]
    ensures bothConnected
  {
    var a := new PeerConnection();
    var b := new PeerConnection();
    a.OnOpen();
    b.OnOpen();
    var _ := b.OnMessage(a.sent[0], Some(""), true);
    var _ := a.OnMessage(b.sent[0], Some(""), true);
    var _ := b.OnMessage(a.sent[1], Some(""), true);
    var _ := a.OnMessage(b.sent[1], Some(""), true);
    aSent, bSent := a.sent, b.sent;
    bothConnected := a.connected && b.connected;
  }

  /**
   * Two fresh engines that each start negotiating before receiving the
   * other's bit both advertise `false`, and both end up polite: the
   * asymmetry the collision rule relies on does not arise.
   */
  method CrossedPoliteness() returns (aPolite: bool, bPolite: bool)
    ensures aPolite && bPolite
  {
    var a := new PeerConnection();
    var b := new PeerConnection();
    a.BeginNegotiation();
    b.BeginNegotiation();
    var _ := b.OnMessage(a.sent[0], Some(""), true);
    var _ := a.OnMessage(b.sent[0], Some(""), true);
    aPolite, bPolite := a.polite, b.polite;
  }

  /**
   * Sequential resolution does give complementary roles: the engine that
   * receives the other's bit first becomes polite and advertises `true`,
   * which makes the other impolite.
   */
  method SequentialPoliteness() returns (aPolite: bool, bPolite: bool)
    ensures !aPolite && bPolite
  {
    var a := new PeerConnection();
    var b := new PeerConnection();
    a.BeginNegotiation();
    var _ := b.OnMessage(a.sent[0], Some(""), true);
    b.BeginNegotiation();
    var _ := a.OnMessage(b.sent[0], Some(""), true);
    aPolite, bPolite := a.polite, b.polite;
  }

  /**
   * Glare with complementary roles: both engines make an offer at once and
   * the offers cross. The impolite engine ignores the incoming offer, the
   * polite one rolls its own back and answers, and once the answer arrives
   * both are stable with the impolite engine's offer and the polite engine's
   * answer as their agreed descriptions.
   */
  method GlareResolves(aPolite: bool, offerA: string, offerB: string, answerA: string, answerB: string)
    returns (aOutcome: Outcome, bOutcome: Outcome, aFinal: Transport, bFinal: Transport)
    ensures aOutcome == (if aPolite then Completed else OfferIgnored)
    ensures bOutcome == (if aPolite then OfferIgnored else Completed)
    ensures aFinal.signaling == Stable && bFinal.signaling == Stable
    ensures aFinal.local == bFinal.remote && aFinal.remote == bFinal.local
    ensures !aPolite ==>
      && aFinal.local == Some(SessionDescription(Offer, EnableStereo(offerA)))
      && bFinal.local == Some(SessionDescription(Answer, EnableStereo(answerB)))
    ensures aPolite ==>
      && bFinal.local == Some(SessionDescription(Offer, EnableStereo(offerB)))
      && aFinal.local == Some(SessionDescription(Answer, EnableStereo(answerA)))
  {
    var a := new PeerConnection();
    var b := new PeerConnection();
    // Roles already settled: each has received the other's resolved bit.
    var _ := a.OnMessage(Polite(!aPolite), Some(""), true);
    var _ := b.OnMessage(Polite(aPolite), Some(""), true);
    // Both offer before either hears the other's offer.
    var _ := a.OnNegotiationNeeded(Some(offerA));
    var _ := b.OnNegotiationNeeded(Some(offerB));
    // Each receives the other's bit (unchanged roles) and then its offer.
    var _ := a.OnMessage(b.sent[0], Some(""), true);
    aOutcome := a.OnMessage(b.sent[1], Some(answerA), true);
    var _ := b.OnMessage(a.sent[0], Some(""), true);
    bOutcome := b.OnMessage(a.sent[1], Some(answerB), true);
    // The polite side's answer travels back.
    if aPolite {
      var _ := b.OnMessage(a.sent[2], Some(""), true);
    } else {
      var _ := a.OnMessage(b.sent[2], Some(""), true);
    }
    aFinal, bFinal := a.pc, b.pc;
  }

  /**
   * Glare between two fresh engines, as it happens when both start at once:
   * both become polite, both roll back and answer the other's offer, and each
   * answer is then refused because neither has an offer pending. The two
   * sides are left with different agreed descriptions.
   */
  method GlareWithBothPolite(offerA: string, offerB: string, answerA: string, answerB: string)
    returns (aFails: Outcome, bFails: Outcome, aFinal: Transport, bFinal: Transport)
    ensures aFails == Threw(RemoteDescriptionRejected) && bFails == Threw(RemoteDescriptionRejected)
    ensures aFinal.signaling == Stable && bFinal.signaling == Stable
    ensures aFinal.local != bFinal.remote && aFinal.remote != bFinal.local
  {
    var a := new PeerConnection();
    var b := new PeerConnection();
    var _ := a.OnNegotiationNeeded(Some(offerA));
    var _ := b.OnNegotiationNeeded(Some(offerB));
    var _ := a.OnMessage(b.sent[0], Some(""), true);
    var _ := a.OnMessage(b.sent[1], Some(answerA), true);
    var _ := b.OnMessage(a.sent[0], Some(""), true);
    var _ := b.OnMessage(a.sent[1], Some(answerB), true);
    aFails := a.OnMessage(b.sent[2], Some(""), true);
    bFails := b.OnMessage(a.sent[2], Some(""), true);
    aFinal, bFinal := a.pc, b.pc;
  }
}
