/** The file-backed signer (privval/file.go): what it signs, what it keeps in memory and
    on disk, and what can be said of every run with crashes and reloads.

    Signing with the key, and whether a save succeeds, are inputs of each operation. */
module Signer {
  import opened Common
  import opened Votes

  const STEP_NONE: int := 0
  const STEP_PROPOSE: int := 1
  const STEP_PREVOTE: int := 2
  const STEP_PRECOMMIT: int := 3

  datatype Proposal = Proposal(
    height: int, round: int, polRound: int, blockID: BlockID, timestamp: int, signature: Bytes)

  function ProposalSignBytes(chainID: string, p: Proposal): SignBytes {
    ProposalBytes(p.height, p.round, p.polRound, CanonicalBlockID(p.blockID), p.timestamp, chainID)
  }

  datatype HRS = HRS(height: int, round: int, step: int)

  predicate Before(a: HRS, b: HRS) {
    a.height < b.height || (a.height == b.height && (a.round < b.round || (a.round == b.round && a.step < b.step)))
  }

  /** FilePVLastSignState. */
  datatype State = State(hrs: HRS, signature: Option<Bytes>, signBytes: Option<SignBytes>)

  const FRESH: State := State(HRS(0, 0, STEP_NONE), None, None)

  /** Saving leaves empty signatures out of the file, so they come back as nil. */
  function Reloaded(s: State): State {
    if s.signature == Some([]) then s.(signature := None) else s
  }

  datatype Check = Regression | NoSignBytes | NilSignature | SameHRS | NewHRS

  /** checkHRS; NilSignature is its panic. */
  function CheckHRS(s: State, hrs: HRS): Check {
    if s.hrs.height > hrs.height then Regression
    else if s.hrs.height == hrs.height then
      if s.hrs.round > hrs.round then Regression
      else if s.hrs.round == hrs.round then
        if s.hrs.step > hrs.step then Regression
        else if s.hrs.step == hrs.step then
          if s.signBytes.Some? then (if s.signature.None? then NilSignature else SameHRS)
          else NoSignBytes
        else NewHRS
      else NewHRS
    else NewHRS
  }

  /** The check is the order on height, round and step. */
  lemma CheckIsOrder(s: State, hrs: HRS)
    ensures CheckHRS(s, hrs) == NewHRS <==> Before(s.hrs, hrs)
    ensures CheckHRS(s, hrs) == Regression <==> Before(hrs, s.hrs)
    ensures CheckHRS(s, hrs) == SameHRS <==> s.hrs == hrs && s.signBytes.Some? && s.signature.Some?
  {
  }

  function VoteToStep(kind: MsgType): Option<int> {
    match kind
    case Prevote => Some(STEP_PREVOTE)
    case Precommit => Some(STEP_PRECOMMIT)
    case _ => None
  }

  /** checkVotesOnlyDifferByTimestamp: the earlier timestamp, if that is all. */
  function OnlyTimestampDiffers(last: SignBytes, now: SignBytes): Option<int> {
    if last.VoteBytes? && now.VoteBytes?
       && last == VoteBytes(now.kind, now.height, now.round, now.blockID, last.timestamp, now.chainID)
    then Some(last.timestamp) else None
  }

  /** What becomes of a save: done; the process is lost before or after it (a failed
      save that ends the process is one of these); or it fails and the process lives. */
  datatype Fate = Saved | LostBefore | LostAfter | Survived

  datatype Message = VoteMessage(chainID: string, vote: Vote) | ProposalMessage(chainID: string, proposal: Proposal)

  datatype Outcome = Returned(message: Message) | Failed | Panicked | Lost

  /** The process and the file. */
  datatype Machine = Machine(memory: State, disk: State)

  function Restarted(m: Machine): Machine {
    m.(memory := Reloaded(m.disk))
  }

  /** saveSigned, followed by what the caller does with the signed message. */
  function SaveSigned(m: Machine, next: State, message: Message, fate: Fate): (Machine, Outcome) {
    match fate
    case Saved => (Machine(next, next), Returned(message))
    case LostBefore => (Restarted(m), Lost)
    case LostAfter => (Restarted(m.(disk := next)), Lost)
    case Survived => (m.(memory := next), Failed)
  }

  /** A call: the message to sign and what Sign and Save will do. */
  datatype Call =
    | VoteCall(chainID: string, vote: Vote, sig: Option<Bytes>, extSig: Option<Bytes>, fate: Fate)
    | ProposalCall(chainID: string, proposal: Proposal, sig: Option<Bytes>, fate: Fate)
    | Crash

  predicate Extended(vote: Vote) {
    vote.kind == Precommit && !IsNil(vote.blockID)
  }

  /** signVote when a vote for this height, round and step was signed before. */
  function ResignVote(last: State, chainID: string, vote: Vote, extSig: Bytes): Outcome
    requires last.signBytes.Some? && last.signature.Some?
  {
    var signBytes := VoteSignBytes(chainID, vote);
    var again := vote.(signature := last.signature.value, extensionSignature := extSig);
    if signBytes == last.signBytes.value then Returned(VoteMessage(chainID, again))
    else
      var timestamp := OnlyTimestampDiffers(last.signBytes.value, signBytes);
      if timestamp.None? then Failed else Returned(VoteMessage(chainID, again.(timestamp := timestamp.value)))
  }

  function SignVoteOn(m: Machine, c: Call): (Machine, Outcome)
    requires c.VoteCall?
  {
    var (vote, step) := (c.vote, VoteToStep(c.vote.kind));
    if step.None? then (m, Failed)
    else
      var hrs := HRS(vote.height, vote.round, step.value);
      var check := CheckHRS(m.memory, hrs);
      if check == Regression || check == NoSignBytes then (m, Failed)
      else if check == NilSignature then (m, Panicked)
      else if Extended(vote) && c.extSig.None? then (m, Failed)
      else if !Extended(vote) && vote.extension != [] then (m, Failed)
      else
        var extSig := if Extended(vote) then c.extSig.value else [];
        if check == SameHRS then (m, ResignVote(m.memory, c.chainID, vote, extSig))
        else if c.sig.None? then (m, Failed)
        else
          var signed := vote.(signature := c.sig.value, extensionSignature := extSig);
          SaveSigned(m, State(hrs, c.sig, Some(VoteSignBytes(c.chainID, vote))), VoteMessage(c.chainID, signed), c.fate)
  }

  function SignProposalOn(m: Machine, c: Call): (Machine, Outcome)
    requires c.ProposalCall?
  {
    var p := c.proposal;
    var hrs := HRS(p.height, p.round, STEP_PROPOSE);
    var check := CheckHRS(m.memory, hrs);
    var signBytes := ProposalSignBytes(c.chainID, p);
    if check == Regression || check == NoSignBytes then (m, Failed)
    else if check == NilSignature then (m, Panicked)
    else if check == SameHRS then
      if m.memory.signBytes != Some(signBytes) then (m, Failed)
      else (m, Returned(ProposalMessage(c.chainID, p.(signature := m.memory.signature.value))))
    else if c.sig.None? then (m, Failed)
    else
      var signed := p.(signature := c.sig.value);
      SaveSigned(m, State(hrs, c.sig, Some(signBytes)), ProposalMessage(c.chainID, signed), c.fate)
  }

  function Perform(m: Machine, c: Call): (Machine, Outcome) {
    match c
    case VoteCall(_, _, _, _, _) => SignVoteOn(m, c)
    case ProposalCall(_, _, _, _) => SignProposalOn(m, c)
    case Crash => (Restarted(m), Lost)
  }

  /** When a vote gets signed: a vote without stray extension that is new and can be
      signed and saved, or that was signed before up to its timestamp. */
  lemma VoteReturnedIff(m: Machine, c: Call)
    requires c.VoteCall?
    ensures var v := c.vote;
            SignVoteOn(m, c).1.Returned?
            <==> && VoteToStep(v.kind).Some?
                 && (if Extended(v) then c.extSig.Some? else v.extension == [])
                 && var hrs := HRS(v.height, v.round, VoteToStep(v.kind).value);
                 && (|| (Before(m.memory.hrs, hrs) && c.sig.Some? && c.fate == Saved)
                     || (&& m.memory.hrs == hrs && m.memory.signature.Some? && m.memory.signBytes.Some?
                         && OnlyTimestampDiffers(m.memory.signBytes.value, VoteSignBytes(c.chainID, v)).Some?)
                     || (&& m.memory.hrs == hrs && m.memory.signature.Some?
                         && m.memory.signBytes == Some(VoteSignBytes(c.chainID, v))))
    ensures var r := SignVoteOn(m, c).1;
            r.Returned? ==>
              && r.message.VoteMessage? && r.message.chainID == c.chainID
              && r.message.vote.(signature := c.vote.signature, extensionSignature := c.vote.extensionSignature,
                                 timestamp := c.vote.timestamp) == c.vote
              && (if Extended(c.vote) then c.extSig == Some(r.message.vote.extensionSignature)
                  else r.message.vote.extension == r.message.vote.extensionSignature == [])
  {
    if VoteToStep(c.vote.kind).Some? {
      CheckIsOrder(m.memory, HRS(c.vote.height, c.vote.round, VoteToStep(c.vote.kind).value));
    }
  }

  /** When a proposal gets signed: a new one, or the very one signed before. */
  lemma ProposalReturnedIff(m: Machine, c: Call)
    requires c.ProposalCall?
    ensures var (p, hrs) := (c.proposal, HRS(c.proposal.height, c.proposal.round, STEP_PROPOSE));
            SignProposalOn(m, c).1.Returned?
            <==> || (Before(m.memory.hrs, hrs) && c.sig.Some? && c.fate == Saved)
                 || (&& m.memory.hrs == hrs && m.memory.signature.Some?
                     && m.memory.signBytes == Some(ProposalSignBytes(c.chainID, p)))
    ensures var r := SignProposalOn(m, c).1;
            r.Returned? ==>
              && r.message.ProposalMessage? && r.message.chainID == c.chainID
              && r.message.proposal.(signature := c.proposal.signature) == c.proposal
  {
    CheckIsOrder(m.memory, HRS(c.proposal.height, c.proposal.round, STEP_PROPOSE));
  }

  // ----- what was released

  function Covers(message: Message): SignBytes {
    match message
    case VoteMessage(chainID, vote) => VoteSignBytes(chainID, vote)
    case ProposalMessage(chainID, p) => ProposalSignBytes(chainID, p)
  }

  function SignatureOf(message: Message): Bytes {
    match message
    case VoteMessage(_, vote) => vote.signature
    case ProposalMessage(_, p) => p.signature
  }

  function StepOf(bytes: SignBytes): int {
    match bytes
    case VoteBytes(kind, _, _, _, _, _) => if kind == Prevote then STEP_PREVOTE else STEP_PRECOMMIT
    case ExtensionBytes(_, _, _, _) => STEP_NONE
    case ProposalBytes(_, _, _, _, _, _) => STEP_PROPOSE
  }

  function HRSOf(bytes: SignBytes): HRS {
    HRS(bytes.height, bytes.round, StepOf(bytes))
  }

  datatype Signed = Signed(bytes: SignBytes, signature: Bytes)

  /** The extension of a vote, as its extension signature covers it, and that signature. */
  function ExtensionOf(message: Message): Option<Signed> {
    match message
    case VoteMessage(chainID, vote) => Some(Signed(ExtensionSignBytes(chainID, vote), vote.extensionSignature))
    case ProposalMessage(_, _) => None
  }

  /** What has been handed out: what the signature covers, the signature, and of a vote
      the extension with its signature. */
  datatype Release = Release(bytes: SignBytes, signature: Bytes, extension: Option<Signed>)

  function ReleaseOf(message: Message): Release {
    Release(Covers(message), SignatureOf(message), ExtensionOf(message))
  }

  function Released(outcome: Outcome): seq<Release> {
    if outcome.Returned? then [ReleaseOf(outcome.message)] else []
  }

  /** A run: the machine, and all that was released. */
  function Run(m: Machine, calls: seq<Call>): (Machine, seq<Release>) {
    if calls == [] then (m, [])
    else
      var (before, log) := Run(m, calls[..|calls| - 1]);
      var (after, outcome) := Perform(before, calls[|calls| - 1]);
      (after, log + Released(outcome))
  }

  // ----- no double signing

  /** What a call signs, and that Sign signs it. */
  predicate Faithful(s: Scheme, pubKey: Bytes, c: Call) {
    match c
    case VoteCall(chainID, vote, sig, extSig, _) =>
      && (sig.Some? ==> s.valid(pubKey, VoteSignBytes(chainID, vote), sig.value))
      && (Extended(vote) && extSig.Some? ==> s.valid(pubKey, ExtensionSignBytes(chainID, vote), extSig.value))
    case ProposalCall(chainID, p, sig, _) => sig.Some? ==> s.valid(pubKey, ProposalSignBytes(chainID, p), sig.value)
    case Crash => true
  }

  /** The call gets as far as saving: a later height, round and step, a signature, and
      for a vote the extension that its kind allows. */
  predicate Saves(m: Machine, c: Call) {
    match c
    case VoteCall(_, vote, sig, extSig, _) =>
      && VoteToStep(vote.kind).Some?
      && Before(m.memory.hrs, HRS(vote.height, vote.round, VoteToStep(vote.kind).value))
      && (if Extended(vote) then extSig.Some? else vote.extension == [])
      && sig.Some?
    case ProposalCall(_, p, sig, _) => Before(m.memory.hrs, HRS(p.height, p.round, STEP_PROPOSE)) && sig.Some?
    case Crash => false
  }

  /** The process starts again from the file as it was before the call. */
  predicate Restarts(m: Machine, c: Call) {
    c.Crash? || (Saves(m, c) && c.fate == LostBefore)
  }

  /** The saved signature is for the saved height, round and step. */
  predicate Coherent(s: Scheme, pubKey: Bytes, st: State) {
    st.signBytes.Some? ==>
      && HRSOf(st.signBytes.value) == st.hrs
      && (st.signature.Some? ==> s.valid(pubKey, st.signBytes.value, st.signature.value))
  }

  predicate NotAfter(a: HRS, b: HRS) {
    !Before(b, a)
  }

  /** A release is accounted for: it is for an earlier height, round and step, or it is
      what the state has. */
  predicate Accounted(st: State, e: Release) {
    NotAfter(HRSOf(e.bytes), st.hrs) && (HRSOf(e.bytes) == st.hrs ==> st.signBytes == Some(e.bytes))
  }

  ghost predicate AllAccounted(st: State, log: seq<Release>) {
    forall i :: 0 <= i < |log| ==> Accounted(st, log[i])
  }

  /** Never back, and never two different messages at one place. */
  ghost predicate NoDoubleSigning(log: seq<Release>) {
    forall i, j :: 0 <= i < j < |log| ==>
      && NotAfter(HRSOf(log[i].bytes), HRSOf(log[j].bytes))
      && (HRSOf(log[i].bytes) == HRSOf(log[j].bytes) ==> log[i].bytes == log[j].bytes)
  }

  /** Sign bytes of a precommit for a block. */
  predicate TakesExtension(bytes: SignBytes) {
    bytes.VoteBytes? && bytes.kind == Precommit && bytes.blockID.Some?
  }

  /** The extension of a released vote is of the vote's height, round and chain; it has a
      valid signature where the vote is a precommit for a block, and else both are empty. */
  predicate ProperExtension(s: Scheme, pubKey: Bytes, bytes: SignBytes, extension: Signed) {
    && bytes.VoteBytes? && extension.bytes.ExtensionBytes?
    && extension.bytes == ExtensionBytes(extension.bytes.extension, bytes.height, bytes.round, bytes.chainID)
    && if TakesExtension(bytes) then s.valid(pubKey, extension.bytes, extension.signature)
       else extension.bytes.extension == extension.signature == []
  }

  /** A release is a vote or a proposal with a valid signature, and a vote's extension is
      signed as it should be. */
  predicate Proper(s: Scheme, pubKey: Bytes, e: Release) {
    && s.valid(pubKey, e.bytes, e.signature)
    && (if e.extension.None? then e.bytes.ProposalBytes?
        else && e.bytes.VoteBytes? && VoteToStep(e.bytes.kind).Some?
             && ProperExtension(s, pubKey, e.bytes, e.extension.value))
  }

  ghost predicate AllProper(s: Scheme, pubKey: Bytes, log: seq<Release>) {
    forall i :: 0 <= i < |log| ==> Proper(s, pubKey, log[i])
  }

  /** The file is not ahead of the memory, and agrees with what was released at its own
      height, round and step. */
  ghost predicate Behind(m: Machine, log: seq<Release>) {
    && NotAfter(m.disk.hrs, m.memory.hrs)
    && (m.disk.hrs == m.memory.hrs ==> m.disk.signBytes == m.memory.signBytes)
    && forall i :: 0 <= i < |log| && HRSOf(log[i].bytes) == m.disk.hrs ==> m.disk.signBytes == Some(log[i].bytes)
  }

  ghost predicate Inv(s: Scheme, pubKey: Bytes, m: Machine, log: seq<Release>) {
    && Coherent(s, pubKey, m.memory) && Coherent(s, pubKey, m.disk) && Behind(m, log)
    && AllAccounted(m.memory, log) && AllProper(s, pubKey, log) && NoDoubleSigning(log)
  }

  /** The memory goes on, and the file follows or stays. */
  predicate Advanced(m: Machine, after: Machine) {
    && Before(m.memory.hrs, after.memory.hrs)
    && (after.disk == m.disk
        || (after.disk.hrs == after.memory.hrs && after.disk.signBytes == after.memory.signBytes))
  }

  /** What one call can do and release. */
  ghost predicate Moves(s: Scheme, pubKey: Bytes, m: Machine, c: Call, after: Machine, out: seq<Release>) {
    && Coherent(s, pubKey, after.memory) && Coherent(s, pubKey, after.disk)
    && (if Restarts(m, c) then after == Restarted(m) && out == [] else after == m || Advanced(m, after))
    && |out| <= 1
    && (out != [] ==> && after.memory.signBytes == Some(out[0].bytes)
                      && HRSOf(out[0].bytes) == after.memory.hrs
                      && Proper(s, pubKey, out[0]))
  }

  lemma ResignedVote(s: Scheme, pubKey: Bytes, last: State, chainID: string, vote: Vote, extSig: Bytes)
    requires Coherent(s, pubKey, last) && last.signBytes.Some? && last.signature.Some?
    ensures var r := ResignVote(last, chainID, vote, extSig);
            r.Returned? ==>
              && Covers(r.message) == last.signBytes.value && SignatureOf(r.message) == last.signature.value
              && ExtensionOf(r.message) == Some(Signed(ExtensionSignBytes(chainID, vote), extSig))
  {
  }

  lemma SavedMoves(s: Scheme, pubKey: Bytes, m: Machine, c: Call, next: State, message: Message)
    requires Coherent(s, pubKey, m.memory) && Coherent(s, pubKey, m.disk) && Before(m.memory.hrs, next.hrs)
    requires !c.Crash? && Saves(m, c)
    requires next.signBytes == Some(Covers(message)) && HRSOf(Covers(message)) == next.hrs
    requires next.signature == Some(SignatureOf(message))
    requires Proper(s, pubKey, ReleaseOf(message))
    ensures var (after, outcome) := SaveSigned(m, next, message, c.fate);
            Moves(s, pubKey, m, c, after, Released(outcome))
  {
  }

  lemma VoteMoves(s: Scheme, pubKey: Bytes, m: Machine, c: Call)
    requires c.VoteCall? && Coherent(s, pubKey, m.memory) && Coherent(s, pubKey, m.disk) && Faithful(s, pubKey, c)
    ensures var (after, outcome) := SignVoteOn(m, c); Moves(s, pubKey, m, c, after, Released(outcome))
  {
    var (vote, step) := (c.vote, VoteToStep(c.vote.kind));
    if step.Some? {
      var hrs := HRS(vote.height, vote.round, step.value);
      CheckIsOrder(m.memory, hrs);
      var extSig := if Extended(vote) && c.extSig.Some? then c.extSig.value else [];
      if CheckHRS(m.memory, hrs) == SameHRS {
        ResignedVote(s, pubKey, m.memory, c.chainID, vote, extSig);
      } else if Saves(m, c) {
        var signed := vote.(signature := c.sig.value, extensionSignature := extSig);
        var next := State(hrs, c.sig, Some(VoteSignBytes(c.chainID, vote)));
        SavedMoves(s, pubKey, m, c, next, VoteMessage(c.chainID, signed));
      }
    }
  }

  lemma ProposalMoves(s: Scheme, pubKey: Bytes, m: Machine, c: Call)
    requires c.ProposalCall? && Coherent(s, pubKey, m.memory) && Coherent(s, pubKey, m.disk) && Faithful(s, pubKey, c)
    ensures var (after, outcome) := SignProposalOn(m, c); Moves(s, pubKey, m, c, after, Released(outcome))
  {
    var p := c.proposal;
    var hrs := HRS(p.height, p.round, STEP_PROPOSE);
    CheckIsOrder(m.memory, hrs);
    if Saves(m, c) {
      var next := State(hrs, c.sig, Some(ProposalSignBytes(c.chainID, p)));
      SavedMoves(s, pubKey, m, c, next, ProposalMessage(c.chainID, p.(signature := c.sig.value)));
    }
  }

  lemma CallMoves(s: Scheme, pubKey: Bytes, m: Machine, c: Call)
    requires Coherent(s, pubKey, m.memory) && Coherent(s, pubKey, m.disk) && Faithful(s, pubKey, c)
    ensures var (after, outcome) := Perform(m, c); Moves(s, pubKey, m, c, after, Released(outcome))
  {
    match c {
      case VoteCall(_, _, _, _, _) => VoteMoves(s, pubKey, m, c);
      case ProposalCall(_, _, _, _) => ProposalMoves(s, pubKey, m, c);
      case Crash =>
    }
  }

  /** The process starts again from a file that is behind something released. */
  ghost predicate Forgets(m: Machine, log: seq<Release>, c: Call) {
    Restarts(m, c) && exists i :: 0 <= i < |log| && Before(m.disk.hrs, HRSOf(log[i].bytes))
  }

  lemma MoreProper(s: Scheme, pubKey: Bytes, log: seq<Release>, out: seq<Release>)
    requires AllProper(s, pubKey, log) && |out| <= 1 && (out != [] ==> Proper(s, pubKey, out[0]))
    ensures AllProper(s, pubKey, log + out)
  {
  }

  lemma OneMore(s: Scheme, pubKey: Bytes, m: Machine, log: seq<Release>, c: Call, after: Machine, out: seq<Release>)
    requires Inv(s, pubKey, m, log) && Moves(s, pubKey, m, c, after, out) && !Forgets(m, log, c)
    ensures Inv(s, pubKey, after, log + out)
  {
    MoreProper(s, pubKey, log, out);
    forall i | 0 <= i < |log|
      ensures Accounted(after.memory, log[i])
      ensures HRSOf(log[i].bytes) == after.disk.hrs ==> after.disk.signBytes == Some(log[i].bytes)
      ensures out != [] ==> NotAfter(HRSOf(log[i].bytes), HRSOf(out[0].bytes))
      ensures out != [] && HRSOf(log[i].bytes) == HRSOf(out[0].bytes) ==> log[i].bytes == out[0].bytes
    {
      assert Accounted(m.memory, log[i]);
    }
  }

  /** No call of the run starts again from a file that is behind something released. */
  ghost predicate NothingForgotten(m: Machine, calls: seq<Call>) {
    forall i :: 0 <= i < |calls| ==>
      var (before, log) := Run(m, calls[..i]); !Forgets(before, log, calls[i])
  }

  /** Whatever fates the saves have: a run that forgets nothing keeps the invariant, which
      rules out double signing. */
  lemma {:induction false} RunKeepsInv(s: Scheme, pubKey: Bytes, m: Machine, calls: seq<Call>)
    requires Inv(s, pubKey, m, []) && NothingForgotten(m, calls)
    requires forall i :: 0 <= i < |calls| ==> Faithful(s, pubKey, calls[i])
    ensures Inv(s, pubKey, Run(m, calls).0, Run(m, calls).1)
  {
    if calls != [] {
      var n := |calls| - 1;
      assert forall i :: 0 <= i < n ==> calls[..n][..i] == calls[..i];
      RunKeepsInv(s, pubKey, m, calls[..n]);
      var (before, log) := Run(m, calls[..n]);
      CallMoves(s, pubKey, before, calls[n]);
      var (after, outcome) := Perform(before, calls[n]);
      OneMore(s, pubKey, before, log, calls[n], after, Released(outcome));
    }
  }

  /** The memory is what is on disk, at most reloaded. */
  predicate InSync(m: Machine) {
    m.memory == m.disk || m.memory == Reloaded(m.disk)
  }

  /** No failed save is survived. */
  predicate Strict(c: Call) {
    c.Crash? || c.fate != Survived
  }

  /** Memory and file come apart exactly when a save fails and the process goes on. */
  lemma SyncLostIff(m: Machine, c: Call)
    requires InSync(m)
    ensures InSync(Perform(m, c).0) <==> !(Saves(m, c) && c.fate == Survived)
  {
    match c
    case VoteCall(_, vote, _, _, _) =>
      if VoteToStep(vote.kind).Some? {
        CheckIsOrder(m.memory, HRS(vote.height, vote.round, VoteToStep(vote.kind).value));
      }
    case ProposalCall(_, p, _, _) => CheckIsOrder(m.memory, HRS(p.height, p.round, STEP_PROPOSE));
    case Crash =>
  }

  lemma ForgottenSnoc(m: Machine, calls: seq<Call>, c: Call)
    requires NothingForgotten(m, calls)
    ensures NothingForgotten(m, calls + [c]) <==> !Forgets(Run(m, calls).0, Run(m, calls).1, c)
  {
    var more := calls + [c];
    assert more[..|calls|] == calls && more[|calls|] == c;
    assert forall i :: 0 <= i < |calls| ==> more[..i] == calls[..i] && more[i] == calls[i];
  }

  lemma SyncForgetsNothing(m: Machine, log: seq<Release>, c: Call)
    requires InSync(m) && AllAccounted(m.memory, log)
    ensures !Forgets(m, log, c)
  {
    assert forall i :: 0 <= i < |log| ==> Accounted(m.memory, log[i]);
  }

  /** No double signing: over every run, with crashes anywhere and reloads of what was
      saved last, releases never go back, those for one height, round and step cover
      the same bytes, each message is covered by its signature and the extension of a
      precommit for a block by its own. */
  lemma {:induction false} RunIsSafe(s: Scheme, pubKey: Bytes, m: Machine, calls: seq<Call>)
    requires InSync(m) && Coherent(s, pubKey, m.disk)
    requires forall i :: 0 <= i < |calls| ==> Faithful(s, pubKey, calls[i]) && Strict(calls[i])
    ensures InSync(Run(m, calls).0) && NothingForgotten(m, calls)
    ensures Inv(s, pubKey, Run(m, calls).0, Run(m, calls).1)
  {
    if calls != [] {
      var n := |calls| - 1;
      RunIsSafe(s, pubKey, m, calls[..n]);
      var (before, log) := Run(m, calls[..n]);
      SyncLostIff(before, calls[n]);
      SyncForgetsNothing(before, log, calls[n]);
      ForgottenSnoc(m, calls[..n], calls[n]);
      assert calls[..n] + [calls[n]] == calls;
      RunKeepsInv(s, pubKey, m, calls);
    }
  }

  /** Whatever is forgotten: in every run, each message is covered by its signature and the
      extension of each precommit for a block by its own. */
  lemma {:induction false} RunIsProper(s: Scheme, pubKey: Bytes, m: Machine, calls: seq<Call>)
    requires Coherent(s, pubKey, m.memory) && Coherent(s, pubKey, m.disk)
    requires forall i :: 0 <= i < |calls| ==> Faithful(s, pubKey, calls[i])
    ensures AllProper(s, pubKey, Run(m, calls).1)
    ensures Coherent(s, pubKey, Run(m, calls).0.memory) && Coherent(s, pubKey, Run(m, calls).0.disk)
  {
    if calls != [] {
      var n := |calls| - 1;
      RunIsProper(s, pubKey, m, calls[..n]);
      var (before, log) := Run(m, calls[..n]);
      CallMoves(s, pubKey, before, calls[n]);
      MoreProper(s, pubKey, log, Released(Perform(before, calls[n]).1));
    }
  }

  // ----- vote extensions are signed anew each time

  /** Call `i` of a run. */
  function OutcomeAt(m: Machine, calls: seq<Call>, i: nat): Outcome
    requires i < |calls|
  {
    Perform(Run(m, calls[..i]).0, calls[i]).1
  }

  /** It returns a precommit for a block. */
  predicate ExtendedAt(m: Machine, calls: seq<Call>, i: int) {
    0 <= i < |calls| && calls[i].VoteCall? && Extended(calls[i].vote) && OutcomeAt(m, calls, i).Returned?
  }

  lemma RunSnoc(m: Machine, calls: seq<Call>, c: Call)
    ensures var (before, log) := Run(m, calls);
            var (after, outcome) := Perform(before, c);
            Run(m, calls + [c]) == (after, log + Released(outcome))
  {
    assert (calls + [c])[..|calls|] == calls;
  }

  lemma OutcomeBefore(m: Machine, calls: seq<Call>, c: Call, i: nat)
    requires i < |calls|
    ensures OutcomeAt(m, calls + [c], i) == OutcomeAt(m, calls, i)
  {
    assert (calls + [c])[..i] == calls[..i];
  }

  lemma LastOutcome(m: Machine, calls: seq<Call>, c: Call)
    ensures Run(m, calls + [c]).1 == Run(m, calls).1 + Released(OutcomeAt(m, calls + [c], |calls|))
  {
    RunSnoc(m, calls, c);
    assert (calls + [c])[..|calls|] == calls;
  }

  ghost predicate ReleasedIn(m: Machine, calls: seq<Call>, e: Release) {
    exists i :: 0 <= i < |calls| && e in Released(OutcomeAt(m, calls, i))
  }

  lemma ReleasedMore(m: Machine, calls: seq<Call>, c: Call, e: Release)
    ensures ReleasedIn(m, calls + [c], e)
            <==> ReleasedIn(m, calls, e) || e in Released(OutcomeAt(m, calls + [c], |calls|))
  {
    forall i | 0 <= i < |calls| ensures OutcomeAt(m, calls + [c], i) == OutcomeAt(m, calls, i) {
      OutcomeBefore(m, calls, c, i);
    }
  }

  lemma {:induction false} LogIs(m: Machine, calls: seq<Call>, e: Release)
    ensures e in Run(m, calls).1 <==> ReleasedIn(m, calls, e)
  {
    if calls != [] {
      var (shorter, c) := (calls[..|calls| - 1], calls[|calls| - 1]);
      assert calls == shorter + [c];
      LogIs(m, shorter, e);
      LastOutcome(m, shorter, c);
      ReleasedMore(m, shorter, c, e);
    }
  }

  /** What a call releases, if it is a precommit for a block. */
  lemma ExtensionReleased(m: Machine, c: Call, e: Release)
    requires e in Released(Perform(m, c).1)
    ensures TakesExtension(e.bytes) <==> c.VoteCall? && Extended(c.vote)
    ensures TakesExtension(e.bytes) ==>
              && HRSOf(e.bytes) == HRS(c.vote.height, c.vote.round, STEP_PRECOMMIT)
              && e.extension.Some? && e.extension.value.bytes == ExtensionSignBytes(c.chainID, c.vote)
  {
    if c.VoteCall? {
      VoteReturnedIff(m, c);
    } else if c.ProposalCall? {
      ProposalReturnedIff(m, c);
    }
  }

  /** For each height and round, extension signatures on the same bytes. */
  ghost predicate OneExtension(log: seq<Release>) {
    forall e, f :: e in log && f in log && TakesExtension(e.bytes) && TakesExtension(f.bytes)
                   && HRSOf(e.bytes) == HRSOf(f.bytes) ==>
      e.extension.Some? && f.extension.Some? && e.extension.value.bytes == f.extension.value.bytes
  }

  /** In every run the extension signatures for one height and round cover the same bytes
      exactly when the precommits for a block that it returned for them had the same chain
      and extension. */
  lemma OneExtensionIff(m: Machine, calls: seq<Call>)
    ensures OneExtension(Run(m, calls).1)
            <==> forall i, j :: && ExtendedAt(m, calls, i) && ExtendedAt(m, calls, j)
                                && calls[i].vote.height == calls[j].vote.height
                                && calls[i].vote.round == calls[j].vote.round ==>
                   calls[i].chainID == calls[j].chainID && calls[i].vote.extension == calls[j].vote.extension
  {
    var log := Run(m, calls).1;
    forall i | ExtendedAt(m, calls, i)
      ensures var e := ReleaseOf(OutcomeAt(m, calls, i).message);
              && e in log && TakesExtension(e.bytes)
              && HRSOf(e.bytes) == HRS(calls[i].vote.height, calls[i].vote.round, STEP_PRECOMMIT)
              && e.extension.Some? && e.extension.value.bytes == ExtensionSignBytes(calls[i].chainID, calls[i].vote)
    {
      var e := ReleaseOf(OutcomeAt(m, calls, i).message);
      LogIs(m, calls, e);
      ExtensionReleased(Run(m, calls[..i]).0, calls[i], e);
    }
    forall e | e in log && TakesExtension(e.bytes)
      ensures exists i :: && ExtendedAt(m, calls, i) && e == ReleaseOf(OutcomeAt(m, calls, i).message)
    {
      LogIs(m, calls, e);
      var i :| 0 <= i < |calls| && e in Released(OutcomeAt(m, calls, i));
      ExtensionReleased(Run(m, calls[..i]).0, calls[i], e);
      assert ExtendedAt(m, calls, i);
    }
  }

  /** And they need not: the same precommit with another extension is returned as well, with
      the signature of the first and an extension signature of its own. */
  lemma ExtensionsDiffer(chainID: string, v: Vote, other: Bytes, sig: Bytes, ext: Bytes, otherExt: Bytes)
    requires v.height > 0 && Extended(v) && v.extension != other
    ensures var calls := [VoteCall(chainID, v, Some(sig), Some(ext), Saved),
                          VoteCall(chainID, v.(extension := other), Some(sig), Some(otherExt), Saved)];
            var log := Run(Machine(FRESH, FRESH), calls).1;
            && |log| == 2 && log[0].bytes == log[1].bytes && log[0].signature == log[1].signature
            && log[0].extension == Some(Signed(ExtensionSignBytes(chainID, v), ext))
            && log[1].extension == Some(Signed(ExtensionSignBytes(chainID, v.(extension := other)), otherExt))
            && !OneExtension(log)
  {
    var first := VoteCall(chainID, v, Some(sig), Some(ext), Saved);
    var second := VoteCall(chainID, v.(extension := other), Some(sig), Some(otherExt), Saved);
    var m := Machine(FRESH, FRESH);
    RunSnoc(m, [], first);
    RunSnoc(m, [first], second);
    assert [] + [first] == [first] && [first] + [second] == [first, second];
    var log := Run(m, [first, second]).1;
    assert log[0] in log && log[1] in log;
  }

  // ----- a failed save that is survived

  /** A call for another message at the height, round and step of a release. */
  function ConflictingCall(sign: SignBytes -> Bytes, e: SignBytes): Call
    requires e.ProposalBytes? || (e.VoteBytes? && VoteToStep(e.kind).Some?)
  {
    if e.VoteBytes? then
      var vote := Vote(e.kind, e.height, e.round, NIL_BLOCK, e.timestamp + 1, [], 0, [], [], []);
      VoteCall(e.chainID, vote, Some(sign(VoteSignBytes(e.chainID, vote))), None, Saved)
    else
      var p := Proposal(e.height, e.round, e.polRound, NIL_BLOCK, e.timestamp + 1, []);
      ProposalCall(e.chainID, p, Some(sign(ProposalSignBytes(e.chainID, p))), Saved)
  }

  lemma ConflictReleased(s: Scheme, pubKey: Bytes, sign: SignBytes -> Bytes, m: Machine, e: Release)
    requires forall b :: s.valid(pubKey, b, sign(b))
    requires Proper(s, pubKey, e) && Before(m.memory.hrs, HRSOf(e.bytes))
    ensures var d := ConflictingCall(sign, e.bytes);
            var out := Released(Perform(m, d).1);
            Faithful(s, pubKey, d) && |out| == 1 && HRSOf(out[0].bytes) == HRSOf(e.bytes) && out[0].bytes != e.bytes
  {
    CheckIsOrder(m.memory, HRSOf(e.bytes));
  }

  /** After the process starts again, no further call can double sign, exactly when the
      file it starts from is not behind anything released. */
  lemma ForgettingIff(s: Scheme, pubKey: Bytes, sign: SignBytes -> Bytes, m: Machine, log: seq<Release>, c: Call)
    requires Inv(s, pubKey, m, log) && Faithful(s, pubKey, c) && Restarts(m, c)
    requires forall b :: s.valid(pubKey, b, sign(b))
    ensures (forall d :: Faithful(s, pubKey, d) ==>
                           NoDoubleSigning(log + Released(Perform(Perform(m, c).0, d).1)))
            <==> !Forgets(m, log, c)
  {
    CallMoves(s, pubKey, m, c);
    var after := Perform(m, c).0;
    if i :| 0 <= i < |log| && Before(m.disk.hrs, HRSOf(log[i].bytes)) {
      assert Proper(s, pubKey, log[i]);
      ConflictReleased(s, pubKey, sign, after, log[i]);
      var d := ConflictingCall(sign, log[i].bytes);
      var more := log + Released(Perform(after, d).1);
      assert more[i] == log[i] && more[|log|].bytes != log[i].bytes;
      assert !NoDoubleSigning(more);
    } else {
      OneMore(s, pubKey, m, log, c, after, []);
      assert log + [] == log;
      forall d | Faithful(s, pubKey, d) ensures NoDoubleSigning(log + Released(Perform(after, d).1)) {
        CallMoves(s, pubKey, after, d);
        if Restarts(after, d) {
          assert log + Released(Perform(after, d).1) == log;
        } else {
          OneMore(s, pubKey, after, log, d, Perform(after, d).0, Released(Perform(after, d).1));
        }
      }
    }
  }

  /** Over runs: whatever fates the saves had, a run that has not forgotten anything has
      not double signed; and once it starts again, the next call cannot double sign
      exactly when it has still not forgotten anything. */
  lemma SafeUnlessForgotten(s: Scheme, pubKey: Bytes, sign: SignBytes -> Bytes, m: Machine, calls: seq<Call>, c: Call)
    requires Inv(s, pubKey, m, []) && NothingForgotten(m, calls)
    requires forall i :: 0 <= i < |calls| ==> Faithful(s, pubKey, calls[i])
    requires Faithful(s, pubKey, c) && Restarts(Run(m, calls).0, c)
    requires forall b :: s.valid(pubKey, b, sign(b))
    ensures NoDoubleSigning(Run(m, calls).1)
    ensures (forall d :: Faithful(s, pubKey, d) ==> NoDoubleSigning(Run(m, calls + [c] + [d]).1))
            <==> NothingForgotten(m, calls + [c])
  {
    var (before, log) := Run(m, calls);
    RunKeepsInv(s, pubKey, m, calls);
    ForgettingIff(s, pubKey, sign, before, log, c);
    CallMoves(s, pubKey, before, c);
    RunSnoc(m, calls, c);
    assert log + [] == log;
    forall d ensures Run(m, calls + [c] + [d]).1 == log + Released(Perform(Perform(before, c).0, d).1) {
      RunSnoc(m, calls + [c], d);
    }
    ForgottenSnoc(m, calls, c);
  }

  /** A prevote without extension, to be signed. */
  predicate Plain(v: Vote) {
    v.kind == Prevote && v.height > 0 && v.extension == []
  }

  function SignedState(chainID: string, v: Vote, sig: Bytes): State {
    State(HRS(v.height, v.round, STEP_PREVOTE), Some(sig), Some(VoteSignBytes(chainID, v)))
  }

  function PlainRelease(chainID: string, v: Vote, sig: Bytes): Release {
    Release(VoteSignBytes(chainID, v), sig, Some(Signed(ExtensionSignBytes(chainID, v), [])))
  }

  lemma FirstSigning(chainID: string, v: Vote, sig: Bytes, fate: Fate)
    requires Plain(v)
    ensures var (after, outcome) := Perform(Machine(FRESH, FRESH), VoteCall(chainID, v, Some(sig), None, fate));
            && (fate == Survived ==> after == Machine(SignedState(chainID, v, sig), FRESH) && outcome == Failed)
            && (fate == Saved ==> Released(outcome) == [PlainRelease(chainID, v, sig)])
  {
  }

  lemma SecondSigning(chainID: string, v: Vote, sig: Bytes)
    requires Plain(v)
    ensures var m := Machine(SignedState(chainID, v, sig), FRESH);
            var (after, outcome) := Perform(m, VoteCall(chainID, v, Some(sig), None, Saved));
            after == m && Released(outcome) == [PlainRelease(chainID, v, sig)]
  {
  }

  lemma FourCalls(m: Machine, c1: Call, c2: Call, c3: Call, c4: Call)
    ensures var (m1, o1) := Perform(m, c1);
            var (m2, o2) := Perform(m1, c2);
            var (m3, o3) := Perform(m2, c3);
            var (m4, o4) := Perform(m3, c4);
            Run(m, [c1, c2, c3, c4]) == (m4, Released(o1) + Released(o2) + Released(o3) + Released(o4))
  {
    RunSnoc(m, [], c1);
    RunSnoc(m, [c1], c2);
    RunSnoc(m, [c1, c2], c3);
    RunSnoc(m, [c1, c2, c3], c4);
    var o1 := Perform(m, c1).1;
    assert Run(m, []) == (m, []) && [] + Released(o1) == Released(o1);
    assert [] + [c1] == [c1] && [c1] + [c2] == [c1, c2] && [c1, c2] + [c3] == [c1, c2, c3];
    assert [c1, c2, c3] + [c4] == [c1, c2, c3, c4];
  }

  /** And then two different votes can be released: the first from memory, the second
      after a crash that forgets it. */
  lemma SurvivedSavesDoubleSign(chainID: string, a: Vote, b: Vote, sig: Bytes)
    requires Plain(a) && Plain(b) && a.height == b.height && a.round == b.round
    requires CanonicalBlockID(a.blockID) != CanonicalBlockID(b.blockID)
    ensures var calls := [VoteCall(chainID, a, Some(sig), None, Survived), VoteCall(chainID, a, Some(sig), None, Saved),
                          Crash, VoteCall(chainID, b, Some(sig), None, Saved)];
            !NoDoubleSigning(Run(Machine(FRESH, FRESH), calls).1)
  {
    var first := VoteCall(chainID, a, Some(sig), None, Survived);
    var second := VoteCall(chainID, a, Some(sig), None, Saved);
    var third := VoteCall(chainID, b, Some(sig), None, Saved);
    var m := Machine(FRESH, FRESH);
    FirstSigning(chainID, a, sig, Survived);
    SecondSigning(chainID, a, sig);
    FirstSigning(chainID, b, sig, Saved);
    FourCalls(m, first, second, Crash, third);
    var log := Run(m, [first, second, Crash, third]).1;
    assert log == [PlainRelease(chainID, a, sig), PlainRelease(chainID, b, sig)];
    assert HRSOf(log[0].bytes) == HRSOf(log[1].bytes) && log[0].bytes != log[1].bytes;
  }

  // ----- the object

  class FilePV {
    var memory: State
    var disk: State

    ghost function Value(): Machine
      reads this
    {
      Machine(memory, disk)
    }

    /** LoadFilePV. */
    constructor (saved: State)
      ensures Value() == Machine(Reloaded(saved), saved)
    {
      memory, disk := Reloaded(saved), saved;
    }

    /** saveSigned; the process dies in it where the fate is LostBefore or LostAfter. */
    method Save(next: State, message: Message, fate: Fate) returns (outcome: Outcome)
      modifies this
      ensures (Value(), outcome) == SaveSigned(old(Value()), next, message, fate)
    {
      memory := next;
      match fate
      case Saved =>
        disk := next;
        outcome := Returned(message);
      case LostBefore =>
        memory := Reloaded(disk);
        outcome := Lost;
      case LostAfter =>
        disk := next;
        memory := Reloaded(disk);
        outcome := Lost;
      case Survived =>
        outcome := Failed;
    }

    method SignVote(c: Call) returns (outcome: Outcome)
      requires c.VoteCall?
      modifies this
      ensures (Value(), outcome) == SignVoteOn(old(Value()), c)
    {
      var vote := c.vote;
      var step := VoteToStep(vote.kind);
      if step.None? {
        return Failed;
      }
      var hrs := HRS(vote.height, vote.round, step.value);
      var check := CheckHRS(memory, hrs);
      if check == Regression || check == NoSignBytes {
        return Failed;
      } else if check == NilSignature {
        return Panicked;
      }
      var signBytes := VoteSignBytes(c.chainID, vote);
      var extSig := [];
      if Extended(vote) {
        if c.extSig.None? {
          return Failed;
        }
        extSig := c.extSig.value;
      } else if vote.extension != [] {
        return Failed;
      }
      if check == SameHRS {
        if signBytes == memory.signBytes.value {
          vote := vote.(signature := memory.signature.value);
        } else {
          var timestamp := OnlyTimestampDiffers(memory.signBytes.value, signBytes);
          if timestamp.None? {
            return Failed;
          }
          vote := vote.(timestamp := timestamp.value, signature := memory.signature.value);
        }
        return Returned(VoteMessage(c.chainID, vote.(extensionSignature := extSig)));
      }
      if c.sig.None? {
        return Failed;
      }
      vote := vote.(signature := c.sig.value, extensionSignature := extSig);
      outcome := Save(State(hrs, c.sig, Some(signBytes)), VoteMessage(c.chainID, vote), c.fate);
    }

    method SignProposal(c: Call) returns (outcome: Outcome)
      requires c.ProposalCall?
      modifies this
      ensures (Value(), outcome) == SignProposalOn(old(Value()), c)
    {
      var p := c.proposal;
      var hrs := HRS(p.height, p.round, STEP_PROPOSE);
      var check := CheckHRS(memory, hrs);
      if check == Regression || check == NoSignBytes {
        return Failed;
      } else if check == NilSignature {
        return Panicked;
      }
      var signBytes := ProposalSignBytes(c.chainID, p);
      if check == SameHRS {
        if signBytes != memory.signBytes.value {
          return Failed;
        }
        return Returned(ProposalMessage(c.chainID, p.(signature := memory.signature.value)));
      }
      if c.sig.None? {
        return Failed;
      }
      p := p.(signature := c.sig.value);
      outcome := Save(State(hrs, c.sig, Some(signBytes)), ProposalMessage(c.chainID, p), c.fate);
    }
  }
}
