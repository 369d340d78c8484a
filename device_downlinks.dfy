/** `ProcessDownlink` of a simulated device: what a received downlink does to
    the device's downlink frame counter, and which acknowledgement and which
    downlink report it triggers. Decrypting a join-accept is the activation
    code's work and is given as its result; the join-accept itself is then
    handed on to `ProcessJoinAccept`, which is not part of this model. */
module DeviceDownlinks {

  import opened Wrappers
  import opened Bytes
  import opened Downlink

  /** `util.MAXFCNTGAP`, the modulus the downlink counter wraps at. */
  const MaxFCntGap: uint32 := 16384

  /** A decrypted join-accept, as `DecryptJoinAccept` returns it. */
  datatype JoinAcceptPayload = JoinAcceptPayload(bytes: seq<byte>)

  /** The device's side effects: `SendAck`, and the `PrintDownlink` report
      of a port and its data. */
  datatype Effect = SentAck | PrintedDownlink(fPort: uint8, data: seq<byte>)

  /** The panics that end the handling of a downlink. */
  datatype Panic = NilDereference | DecodePanicked

  /** What `ProcessDownlink` gives back: a record or nil with an error or
      nil, the hand-over of a decrypted join-accept to `ProcessJoinAccept`,
      or a panic. */
  datatype Processed =
    | Answered(payload: Option<InformationDownlink>, err: Option<Error>)
    | JoinAccepted(joinAccept: JoinAcceptPayload)
    | Panicked(panic: Panic)

  predicate IsDataDown(m: MType) {
    m == UnconfirmedDataDown || m == ConfirmedDataDown
  }

  /** The counter after a data downlink whose decoding gave `got`: one past
      the counter `GetDownlink` returned when it returned an error, else one
      past the previous counter, with Go's `uint32` addition, modulo
      `MaxFCntGap`. */
  function NextFCntDown(fCntDown: uint32, got: Returned): (r: uint32)
    requires got.Returned?
    ensures r < MaxFCntGap
    ensures got.err.None? ==> r == (fCntDown + 1) % MaxFCntGap
    ensures got.err.Some? ==> r == (got.fCnt + 1) % MaxFCntGap
    ensures got.err.None? && fCntDown < MaxFCntGap - 1 ==> r == fCntDown + 1
    ensures got.err.None? && fCntDown == MaxFCntGap - 1 ==> r == 0
  {
    var base := if got.err.Some? then got.fCnt else fCntDown;
    WrapUint32(base + 1) % MaxFCntGap
  }

  /** The effects of a data downlink decoded to `got`: one acknowledgement
      exactly when the downlink is confirmed, then one report exactly when
      the record carries data, and that report holds the record's port and
      data. */
  function DataEffects(mType: MType, got: Returned): (r: seq<Effect>)
    requires got.Returned?
    ensures multiset(r)[SentAck] == if mType == ConfirmedDataDown then 1 else 0
    ensures |r| == multiset(r)[SentAck] + (if got.downlink.Some? && got.downlink.value.dataPayload.Some? then 1 else 0)
    ensures got.downlink.Some? && got.downlink.value.dataPayload.Some? ==>
              r[|r| - 1] == PrintedDownlink(got.downlink.value.fPort, got.downlink.value.dataPayload.value)
  {
    var acks := if mType == ConfirmedDataDown then [SentAck] else [];
    if got.downlink.Some? && got.downlink.value.dataPayload.Some? then
      acks + [PrintedDownlink(got.downlink.value.fPort, got.downlink.value.dataPayload.value)]
    else acks
  }

  /** What a data downlink gives back: the record and the error of
      `GetDownlink`; without a record, reading its DataPayload dereferences
      nil. */
  function DataOutcome(got: Returned): Processed {
    if got.IndexOutOfRange? then Panicked(DecodePanicked)
    else if got.downlink.None? then Panicked(NilDereference)
    else Answered(got.downlink, got.err)
  }

  /** The same with a nil check before the record is read: a frame
      `GetDownlink` rejected gives back its error. */
  function GuardedOutcome(got: Returned): Processed {
    if got.IndexOutOfRange? then Panicked(DecodePanicked)
    else Answered(got.downlink, got.err)
  }

  /** A simulated device, as far as downlinks concern it. */
  class Device {
    /** `Info.Status.FCntDown`, the downlink counter the next frame should
        carry. */
    var fCntDown: uint32
    /** `Info.Configuration.DisableFCntDown`. */
    const disableFCntDown: bool
    /** The acknowledgements sent and downlinks reported, oldest first. */
    var effects: seq<Effect>

    constructor (disableFCntDown: bool, fCntDown: uint32)
      ensures this.disableFCntDown == disableFCntDown && this.fCntDown == fCntDown && effects == []
    {
      this.disableFCntDown := disableFCntDown;
      this.fCntDown := fCntDown;
      effects := [];
    }

    /** Lines 36-46 of `ProcessDownlink`: the counter moves on from the one
        `GetDownlink` returned with an error, or else from its own value,
        and a confirmed downlink is acknowledged. */
    method Resynchronise(mtype: MType, got: Returned)
      requires got.Returned?
      modifies this
      ensures fCntDown == NextFCntDown(old(fCntDown), got)
      ensures effects == old(effects) + (if mtype == ConfirmedDataDown then [SentAck] else [])
    {
      if got.err.Some? {
        fCntDown := got.fCnt;
      }
      fCntDown := WrapUint32(fCntDown + 1) % MaxFCntGap;
      if mtype == ConfirmedDataDown {
        effects := effects + [SentAck];
      }
    }

    /** `ProcessDownlink`. A join-accept that decrypts resets the counter;
        one that does not gives back the error and changes nothing. A data
        downlink is decoded against the current counter; the counter then
        moves on, the confirmed kind is acknowledged and data is reported,
        and the record comes back with `GetDownlink`'s error. Other message
        types change nothing. */
    method ProcessDownlink(phy: PhyPayload, lib: Library, join: Result<JoinAcceptPayload, string>) returns (r: Processed)
      modifies this
      ensures phy.mType == JoinAccept && join.Err? ==>
                r == Answered(None, Some(LibraryError(join.error))) && fCntDown == old(fCntDown) && effects == old(effects)
      ensures phy.mType == JoinAccept && join.Ok? ==>
                r == JoinAccepted(join.value) && fCntDown == 0 && effects == old(effects)
      ensures IsDataDown(phy.mType) ==>
                var got := Decode(phy, lib, disableFCntDown, old(fCntDown));
                && r == DataOutcome(got)
                && (got.IndexOutOfRange? ==> fCntDown == old(fCntDown) && effects == old(effects))
                && (got.Returned? ==>
                      fCntDown == NextFCntDown(old(fCntDown), got) && effects == old(effects) + DataEffects(phy.mType, got))
      ensures phy.mType != JoinAccept && !IsDataDown(phy.mType) ==>
                r == Answered(None, None) && fCntDown == old(fCntDown) && effects == old(effects)
    {
      var payload: Option<InformationDownlink> := None;
      var err: Option<Error> := None;
      var mtype := phy.mType;

      if mtype == JoinAccept {
        if join.Err? {
          return Answered(None, Some(LibraryError(join.error)));
        }
        fCntDown := 0;
        return JoinAccepted(join.value);
      } else if mtype == UnconfirmedDataDown || mtype == ConfirmedDataDown {
        var got := GetDownlink(phy, lib, disableFCntDown, fCntDown);
        if got.IndexOutOfRange? {
          return Panicked(DecodePanicked);
        }
        payload, err := got.downlink, got.err;
        Resynchronise(mtype, got);
        if payload.None? {
          return Panicked(NilDereference);
        }
        if payload.value.dataPayload.Some? {
          effects := effects + [PrintedDownlink(payload.value.fPort, payload.value.dataPayload.value)];
        }
      }
      return Answered(payload, err);
    }

    /** `ProcessDownlink` with a nil check right after `GetDownlink`: a data
        downlink it rejected gives back the error and changes neither the
        counter nor the effects; everything else is as in
        `ProcessDownlink`. */
    method ProcessDownlinkGuarded(phy: PhyPayload, lib: Library, join: Result<JoinAcceptPayload, string>) returns (r: Processed)
      modifies this
      ensures phy.mType == JoinAccept && join.Err? ==>
                r == Answered(None, Some(LibraryError(join.error))) && fCntDown == old(fCntDown) && effects == old(effects)
      ensures phy.mType == JoinAccept && join.Ok? ==>
                r == JoinAccepted(join.value) && fCntDown == 0 && effects == old(effects)
      ensures IsDataDown(phy.mType) ==>
                var got := Decode(phy, lib, disableFCntDown, old(fCntDown));
                && r == GuardedOutcome(got)
                && (got.IndexOutOfRange? || got.downlink.None? ==> fCntDown == old(fCntDown) && effects == old(effects))
                && (got.Returned? && got.downlink.Some? ==>
                      fCntDown == NextFCntDown(old(fCntDown), got) && effects == old(effects) + DataEffects(phy.mType, got))
      ensures phy.mType != JoinAccept && !IsDataDown(phy.mType) ==>
                r == Answered(None, None) && fCntDown == old(fCntDown) && effects == old(effects)
    {
      var payload: Option<InformationDownlink> := None;
      var err: Option<Error> := None;
      var mtype := phy.mType;

      if mtype == JoinAccept {
        if join.Err? {
          return Answered(None, Some(LibraryError(join.error)));
        }
        fCntDown := 0;
        return JoinAccepted(join.value);
      } else if mtype == UnconfirmedDataDown || mtype == ConfirmedDataDown {
        var got := GetDownlink(phy, lib, disableFCntDown, fCntDown);
        if got.IndexOutOfRange? {
          return Panicked(DecodePanicked);
        }
        payload, err := got.downlink, got.err;
        if payload.None? {
          return Answered(None, err);
        }
        Resynchronise(mtype, got);
        if payload.value.dataPayload.Some? {
          effects := effects + [PrintedDownlink(payload.value.fPort, payload.value.dataPayload.value)];
        }
      }
      return Answered(payload, err);
    }
  }

  /** A data downlink that fails its MIC check panics on the nil record,
      after the counter was set to 1 and, for a confirmed downlink, after
      the acknowledgement was sent. */
  lemma InvalidMicPanics(phy: PhyPayload, lib: Library, disableCounter: bool, counter: uint32)
    requires IsDataDown(phy.mType) && lib.mic == Ok(false)
    ensures var got := Decode(phy, lib, disableCounter, counter);
            && DataOutcome(got) == Panicked(NilDereference)
            && NextFCntDown(counter, got) == 1
            && DataEffects(phy.mType, got) == (if phy.mType == ConfirmedDataDown then [SentAck] else [])
  {
  }

  /** With the nil check, every frame `GetDownlink` rejects gives back its
      error instead of panicking, and a frame it accepts is handled as
      before. */
  lemma GuardedAnswersRejects(phy: PhyPayload, lib: Library, disableCounter: bool, counter: uint32)
    ensures var got := Decode(phy, lib, disableCounter, counter);
            && (got.Returned? && got.downlink.None? ==>
                  GuardedOutcome(got) == Answered(None, got.err) && got.err.Some?)
            && (got.Returned? && got.downlink.Some? ==> GuardedOutcome(got) == DataOutcome(got))
            && (GuardedOutcome(got).Panicked? <==> got.IndexOutOfRange?)
  {
  }

  /** The counter mismatch is not fatal: a frame with another counter than
      the expected one comes back with its record and the mismatch, and the
      counter resumes after the frame's own. */
  lemma MismatchResynchronises(phy: PhyPayload, lib: Library, fCntDown: uint32)
    requires IsDataDown(phy.mType) && phy.macPayload.Some? && phy.macPayload.value.fCnt != fCntDown
    ensures var got := Decode(phy, lib, false, fCntDown);
            got.Returned? && got.downlink.Some? ==>
              && DataOutcome(got) == Answered(got.downlink, Some(InvalidCounter(fCntDown, phy.macPayload.value.fCnt)))
              && NextFCntDown(fCntDown, got) == (phy.macPayload.value.fCnt + 1) % MaxFCntGap
  {
  }
}
