// The analytics event as both processes see it.
module EventContract {

  /** The three phases of the contract, plus any other value a peer might send. */
  datatype Phase = Start | Update | End | OtherPhase(text: string)

  predicate KnownPhase(p: Phase) { p.Start? || p.Update? || p.End? }

  predicate Boundary(p: Phase) { p.Start? || p.End? }

  /** `body` stands for the contract fields the transport only carries. */
  datatype Event = Event(
    eventId: string, channelId: string, phase: Phase, eventSeq: nat, evidenceId: string, body: string)
}
