/** Identity, session and delivery contracts of accepted upstream writes, and the wrap-safe serial
    order of their tokens. */
module IngressWork {
  import opened Words

  /** Unknown enumerators are representable in the source and fail closed there. */
  datatype IngressDelivery = Tracked | SilentOrdered | LatestState | Rejected | UnknownDelivery(code: u8)

  predicate IsAccepted(delivery: IngressDelivery) {
    delivery.Tracked? || delivery.SilentOrdered? || delivery.LatestState?
  }

  predicate IsLatestState(delivery: IngressDelivery) {
    delivery.LatestState?
  }

  predicate TracksPublicCompletion(delivery: IngressDelivery) {
    delivery.Tracked?
  }

  datatype WorkIdentity = WorkIdentity(sourceToken: u16, sessionGeneration: u16) {
    predicate Valid() {
      sourceToken != 0 && sessionGeneration != 0
    }
  }

  const NO_WORK := WorkIdentity(0, 0)

  datatype SessionPhase = Closed | Teardown | Initializing | SessionReady

  datatype SessionState =
    SessionState(active: bool, currentGeneration: u16, appliedGeneration: u16, phase: SessionPhase)

  predicate WorkCurrent(work: WorkIdentity, session: SessionState) {
    && work.Valid()
    && session.active
    && work.sessionGeneration == session.currentGeneration
    && session.currentGeneration == session.appliedGeneration
    && session.phase == SessionReady
  }

  /** A work is current in exactly one state of the session: active, ready, and with its own non-zero
      generation both announced and applied. */
  lemma {:induction false} CurrentExactly(work: WorkIdentity, session: SessionState)
    ensures WorkCurrent(work, session)
            <==> && work.sourceToken != 0
                 && work.sessionGeneration != 0
                 && session == SessionState(true, work.sessionGeneration, work.sessionGeneration, SessionReady)
  {}

  /** One payload element: the two payload templates of the source share this model. */
  datatype ValueKind = CoilValues | HoldingValues

  datatype Value = Bit(bit: bool) | Register(word: u16)

  /** A borrowed pointer to immutable payload: its address and the values readable from there on. */
  datatype Buffer = Null | Buffer(address: nat, values: seq<Value>) {
    function Plus(offset: nat): Buffer
      requires Buffer? && offset <= |values|
    {
      Buffer(address + offset, values[offset..])
    }
  }

  datatype RawSnapshot = RawSnapshot(data: Buffer, count: u16)

  /** A snapshot view never claims more elements than its owner can read. */
  type Snapshot = s: RawSnapshot | s.data.Buffer? ==> s.count <= |s.data.values|
    witness RawSnapshot(Null, 0)

  predicate SnapshotValidFor(snapshot: Snapshot, expected: u16) {
    expected != 0 && snapshot.data.Buffer? && snapshot.count == expected
  }

  datatype IngressWork = IngressWork(
    kind: ValueKind,
    identity: WorkIdentity,
    start: u16,
    count: u16,
    delivery: IngressDelivery,
    snapshot: Snapshot)

  const NO_INGRESS: IngressWork := IngressWork(CoilValues, NO_WORK, 0, 0, Rejected, RawSnapshot(Null, 0))

  // ----- serial arithmetic -----

  function NextNonZeroSerial16(value: u16): u16 {
    var next := Wrap16(value + 1);
    if next == 0 then 1 else next
  }

  predicate NonZeroSerial16Before(lhs: u16, rhs: u16) {
    if lhs == rhs || lhs == 0 then false
    else if rhs == 0 then true
    else Wrap16(rhs - lhs) < 0x8000
  }

  predicate WorkIdentityBefore(lhs: WorkIdentity, rhs: WorkIdentity) {
    && lhs.Valid()
    && rhs.Valid()
    && lhs.sessionGeneration == rhs.sessionGeneration
    && NonZeroSerial16Before(lhs.sourceToken, rhs.sourceToken)
  }

  /** The token issued `issues` steps after `token`. */
  function TokenAfter(token: u16, issues: nat): u16
    decreases issues
  {
    if issues == 0 then token else NextNonZeroSerial16(TokenAfter(token, issues - 1))
  }

  lemma {:induction false} NextToken(token: u16)
    ensures NextNonZeroSerial16(token) == if token == 0xFFFF then 1 else token + 1
  {}

  lemma {:induction false} NextResidue(x: nat)
    ensures (x + 1) % 0xFFFF == if x % 0xFFFF == 0xFFFE then 0 else x % 0xFFFF + 1
  {
    var quotient, residue := x / 0xFFFF, x % 0xFFFF;
    assert x + 1 == quotient * 0xFFFF + residue + 1;
  }

  /** Issued tokens walk the 65535 non-zero residues in a cycle. */
  lemma {:induction false} TokenAfterClosedForm(token: u16, issues: nat)
    requires token != 0
    ensures TokenAfter(token, issues) == 1 + (token - 1 + issues) % 0xFFFF
  {
    hide NextNonZeroSerial16;
    if issues == 0 {
    } else {
      TokenAfterClosedForm(token, issues - 1);
      NextToken(TokenAfter(token, issues - 1));
      NextResidue(token - 1 + (issues - 1));
    }
  }

  /** Whether issuing `distance` more tokens passes over the reserved zero. */
  predicate WrapsPastZero(token: u16, distance: nat) {
    token + distance > 0xFFFF
  }

  /** The 16-bit order of two issued tokens, exactly: the true distance plus one for a skipped zero
      has to stay below half the serial space; the reverse order needs it above that half. */
  lemma {:induction false} TokenOrderExact(token: u16, distance: nat)
    requires token != 0 && 1 <= distance <= 0xFFFE
    ensures var later := TokenAfter(token, distance);
            var gap := distance + (if WrapsPastZero(token, distance) then 1 else 0);
            && later != 0
            && (NonZeroSerial16Before(token, later) <==> gap < 0x8000)
            && (NonZeroSerial16Before(later, token) <==> gap > 0x8000)
  {
    hide TokenAfter;
    TokenAfterClosedForm(token, distance);
  }

  lemma {:induction false} TokenAfterCompose(token: u16, first: nat, second: nat)
    ensures TokenAfter(token, first + second) == TokenAfter(TokenAfter(token, first), second)
    decreases second
  {
    if second == 0 {
    } else {
      TokenAfterCompose(token, first, second - 1);
      assert first + second - 1 == first + (second - 1);
    }
  }

  lemma {:induction false} TokensNonZero(token: u16, issues: nat)
    requires token != 0 || issues > 0
    ensures TokenAfter(token, issues) != 0
    decreases issues
  {
    if issues <= 1 {
    } else {
      TokensNonZero(token, issues - 1);
    }
  }

  /** Within one session, any two works whose tokens were issued 1 to 32766 steps apart, counted from
      any counter value, compare in issue order and never in reverse. */
  lemma {:induction false} IssueOrderIsTokenOrder(seed: u16, generation: u16, i: nat, j: nat)
    requires generation != 0 && 1 <= i < j && j - i <= 32766
    ensures var earlier := WorkIdentity(TokenAfter(seed, i), generation);
            var later := WorkIdentity(TokenAfter(seed, j), generation);
            WorkIdentityBefore(earlier, later) && !WorkIdentityBefore(later, earlier)
  {
    TokensNonZero(seed, i);
    TokenAfterCompose(seed, i, j - i);
    assert i + (j - i) == j;
    TokenOrderExact(TokenAfter(seed, i), j - i);
  }

  /** Works are ordered by their tokens within one session only. */
  lemma {:induction false} OrderNeedsOneSession(lhs: WorkIdentity, rhs: WorkIdentity)
    ensures WorkIdentityBefore(lhs, rhs) ==>
              && lhs.sessionGeneration == rhs.sessionGeneration != 0
              && lhs.sourceToken != 0 && rhs.sourceToken != 0 && lhs.sourceToken != rhs.sourceToken
    ensures !(WorkIdentityBefore(lhs, rhs) && WorkIdentityBefore(rhs, lhs))
  {}

  /** 32767 is the first distance at which issue order can be lost: there it is lost exactly when the
      reserved zero lies between the two tokens, as it does for every token of the upper half. */
  lemma {:induction false} FirstLostDistance(token: u16, distance: nat)
    requires token != 0 && distance == 32767
    ensures NonZeroSerial16Before(token, TokenAfter(token, distance)) <==> !WrapsPastZero(token, distance)
    ensures WrapsPastZero(token, distance) <==> token > 0x8000
  {
    TokenOrderExact(token, distance);
  }
}
