/**
 * The part of the browser's RTCPeerConnection that the two negotiation
 * engines depend on, kept abstract: the signaling state of section 3.2 of
 * RFC 8829 (JSEP), which carries the pending offer, and the current local and
 * remote descriptions. Whether applying a description succeeds is decided by
 * the signaling state alone; SDP bodies are opaque.
 *
 * Also the offer-collision rule both engines use, the one of the "perfect
 * negotiation" example in section 10.7 of the W3C WebRTC 1.0 specification.
 */
module Signaling {
  import opened Wrappers

  datatype SdpType = Offer | Answer

  datatype SessionDescription = SessionDescription(kind: SdpType, sdp: string)

  datatype SignalingState =
    | Stable
    | HaveLocalOffer(localOffer: SessionDescription)
    | HaveRemoteOffer(remoteOffer: SessionDescription)

  datatype Transport = Transport(signaling: SignalingState,
                                 local: Option<SessionDescription>,
                                 remote: Option<SessionDescription>)

  /** A new peer connection: stable, nothing negotiated yet. */
  const INITIAL := Transport(Stable, None, None)

  /** A pending description, local or remote, is always an offer. */
  ghost predicate WellFormed(t: Transport)
  {
    && (t.signaling.HaveLocalOffer? ==> t.signaling.localOffer.kind == Offer)
    && (t.signaling.HaveRemoteOffer? ==> t.signaling.remoteOffer.kind == Offer)
  }

  /**
   * `setLocalDescription(d)`: an offer is accepted unless a remote offer is
   * pending; an answer only when a remote offer is pending, and it completes
   * the exchange.
   */
  function SetLocal(t: Transport, d: SessionDescription): (r: Option<Transport>)
    ensures r.Some? <==>
      (d.kind == Offer && !t.signaling.HaveRemoteOffer?) || (d.kind == Answer && t.signaling.HaveRemoteOffer?)
    ensures r.Some? && d.kind == Offer ==> r.value == t.(signaling := HaveLocalOffer(d))
    ensures r.Some? && d.kind == Answer ==>
      r.value == Transport(Stable, Some(d), Some(t.signaling.remoteOffer))
  {
    match (d.kind, t.signaling)
    case (Offer, HaveRemoteOffer(_)) => None
    case (Offer, _) => Some(t.(signaling := HaveLocalOffer(d)))
    case (Answer, HaveRemoteOffer(offer)) => Some(Transport(Stable, Some(d), Some(offer)))
    case (Answer, _) => None
  }

  /**
   * `setRemoteDescription(d)`: an offer is always accepted (a pending local
   * offer is rolled back first, as the W3C algorithm does); an answer only
   * when a local offer is pending, and it completes the exchange.
   */
  function SetRemote(t: Transport, d: SessionDescription): (r: Option<Transport>)
    ensures r.Some? <==> d.kind == Offer || t.signaling.HaveLocalOffer?
    ensures r.Some? && d.kind == Offer ==> r.value == t.(signaling := HaveRemoteOffer(d))
    ensures r.Some? && d.kind == Answer ==>
      r.value == Transport(Stable, Some(t.signaling.localOffer), Some(d))
  {
    match (d.kind, t.signaling)
    case (Offer, _) => Some(t.(signaling := HaveRemoteOffer(d)))
    case (Answer, HaveLocalOffer(offer)) => Some(Transport(Stable, Some(offer), Some(d)))
    case (Answer, _) => None
  }

  /** What `setLocalDescription()` without an argument creates: an answer to a pending remote offer, else an offer. */
  function ImplicitDescription(t: Transport, sdp: string): (d: SessionDescription)
    ensures SetLocal(t, d).Some?
    ensures d.sdp == sdp
  {
    if t.signaling.HaveRemoteOffer? then SessionDescription(Answer, sdp) else SessionDescription(Offer, sdp)
  }

  /** Both operations keep a transport well formed. */
  lemma ApplyPreservesWellFormed(t: Transport, d: SessionDescription)
    requires WellFormed(t)
    ensures SetLocal(t, d).Some? ==> WellFormed(SetLocal(t, d).value)
    ensures SetRemote(t, d).Some? ==> WellFormed(SetRemote(t, d).value)
  {
  }

  /**
   * A complete offer/answer exchange: the offerer's local offer and the
   * answerer's answer leave both sides stable, each side's local description
   * being the other's remote one.
   */
  lemma OfferAnswerAgrees(offerer: Transport, answerer: Transport, offer: string, answer: string)
    requires !offerer.signaling.HaveRemoteOffer?
    ensures var o := SessionDescription(Offer, offer);
            var a := SessionDescription(Answer, answer);
            && SetLocal(offerer, o).Some?
            && SetRemote(answerer, o).Some?
            && SetLocal(SetRemote(answerer, o).value, a).Some?
            && SetRemote(SetLocal(offerer, o).value, a).Some?
            && var done1 := SetRemote(SetLocal(offerer, o).value, a).value;
               var done2 := SetLocal(SetRemote(answerer, o).value, a).value;
               && done1.signaling == Stable && done2.signaling == Stable
               && done1.local == done2.remote == Some(o)
               && done1.remote == done2.local == Some(a)
  {
  }

  /** An incoming offer collides when an offer of our own is being made or the transport is not stable. */
  predicate OfferCollision(makingOffer: bool, t: Transport, d: SessionDescription)
  {
    d.kind == Offer && (makingOffer || !t.signaling.Stable?)
  }

  /** The impolite side ignores a colliding offer; the polite side never ignores one. */
  predicate IgnoreOffer(polite: bool, makingOffer: bool, t: Transport, d: SessionDescription)
  {
    !polite && OfferCollision(makingOffer, t, d)
  }

  /** What an event handler of an engine ended with. */
  datatype Failure =
    | OfferNotCreated
    | AnswerNotCreated
    | LocalDescriptionRejected
    | RemoteDescriptionRejected
    | CandidateRejected

  datatype Outcome =
    | Completed
    | OfferIgnored      // the handler returned early on an ignored offer
    | Caught(failure: Failure)   // logged inside the handler
    | Threw(failure: Failure)    // escapes the handler as a rejected promise
}
