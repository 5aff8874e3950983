/** Peer addresses as the handlers compare them. */
module Network {
  import opened Basics

  /**
   What the ASGI server reports for a client: no address at all, an IP address in some
   spelling (0 is the canonical text), or a label that is not an IP address.
   */
  datatype Peer = Unknown | Address(value: nat, spelling: nat) | Label(name: nat)

  /** The IP address, if there is one. */
  function Canonical(p: Peer): Option<nat> {
    if p.Address? then Some(p.value) else None
  }

  /** Addresses compare by value, everything else by exact text. */
  predicate SameIp(expected: Option<Peer>, actual: Peer) {
    && expected.Some?
    && (if Canonical(expected.value).Some? && Canonical(actual).Some?
        then Canonical(expected.value) == Canonical(actual)
        else expected.value == actual)
  }

  /**
   The IP an OTP challenge is bound to: an address is stored in canonical text, and a
   peer without one leaves the challenge unbound.
   */
  function OtpBinding(p: Peer): Option<Peer> {
    if p.Address? then Some(Address(p.value, 0)) else None
  }

  /** The IP check of OTP verification; a label in place of an address is an error, not a match. */
  predicate OtpIpAccepted(bound: Option<Peer>, actual: Peer) {
    bound == None || (Canonical(bound.value).Some? && Canonical(bound.value) == Canonical(actual))
  }

  /** The peer with the spellings of one address merged, as an INET column and the normaliser do. */
  function Merged(p: Peer): Peer {
    if p.Address? then Address(p.value, 0) else p
  }

  /** The IP a trusted-device request is bound to; the request is refused for an unknown peer. */
  function DeviceBinding(p: Peer): Peer {
    Merged(p)
  }

  /** The address recorded with a new session. */
  function SessionIp(p: Peer): Option<Peer> {
    if p == Unknown then None else Some(p)
  }

  /**
   Both bindings accept a peer exactly when it is the same machine whatever the
   spelling: the OTP binding of an address, the device binding of anything known, and
   the address of a session. An unknown peer matches neither a device binding nor a
   session, and a challenge asked for without an address accepts any peer.
   */
  lemma BindingsMeanSamePeer(origin: Peer, actual: Peer)
    ensures OtpIpAccepted(OtpBinding(origin), actual) <==>
            !origin.Address? || (actual.Address? && actual.value == origin.value)
    ensures origin != Unknown ==>
              (SameIp(Some(DeviceBinding(origin)), actual) <==> SameIp(SessionIp(origin), actual))
    ensures origin != Unknown ==>
              (SameIp(SessionIp(origin), actual) <==>
               (Canonical(origin) == Canonical(actual) && (Canonical(origin) == None ==> origin == actual)))
    ensures !SameIp(SessionIp(origin), Unknown)
  {}

  /** The comparison itself does treat two unknown peers as the same, against its description. */
  lemma UnknownMatchesUnknown()
    ensures SameIp(Some(Unknown), Unknown) && OtpBinding(Unknown) == None
  {}
}
