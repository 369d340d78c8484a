/** `GetDownlink` of the simulator's device frames: the checks a received
    data downlink goes through and the record it is reduced to. The work of
    the `lorawan` library (the MIC computation, the decoding of FOpts into
    MAC commands, the decryption of the FRMPayload under either session key)
    is given to the model as the results those calls return. */
module Downlink {

  import opened Wrappers
  import opened Bytes

  /** `lorawan.MType`, in the order of its constants. */
  datatype MType =
    | JoinRequest | JoinAccept | UnconfirmedDataUp | UnconfirmedDataDown
    | ConfirmedDataUp | ConfirmedDataDown | RejoinRequest | Proprietary

  /** An element of a frame's FOpts or FRMPayload list: a MAC command, or a
      data payload whose byte slice may be nil (`None`). */
  datatype Payload =
    | MacCommand(cid: byte, command: seq<byte>)
    | DataPayload(data: Option<seq<byte>>)

  /** The errors `GetDownlink` returns: one passed on from the library, or
      one of its own. `InvalidCounter` carries the expected and the received
      counter that its message prints. */
  datatype Error =
    | LibraryError(message: string)
    | InvalidMic
    | MacPayloadExpected
    | DataPayloadExpected
    | InvalidCounter(counter: uint32, fCnt: uint32)

  /** The parts of a `*lorawan.MACPayload` that are read: the frame header's
      counter and control bits, and the optional port. */
  datatype MacPayload = MacPayload(fCnt: uint32, fPending: bool, ack: bool, fPort: Option<uint8>)

  /** A received frame: its message type and its MAC payload, `None` when
      that payload is not a `*lorawan.MACPayload`. */
  datatype PhyPayload = PhyPayload(mType: MType, macPayload: Option<MacPayload>)

  /** What the library calls return for the frame at hand:
      `ValidateDownlinkDataMIC` under NwkSKey, the FOpts list left by
      `DecodeFOptsToMACCommands`, and the FRMPayload list left by
      `DecryptFRMPayload` under NwkSKey and under AppSKey. */
  datatype Library = Library(
    mic: Result<bool, string>,
    fOpts: Result<seq<Payload>, string>,
    underNwkSKey: Result<seq<Payload>, string>,
    underAppSKey: Result<seq<Payload>, string>)

  /** `InformationDownlink`; a nil FOptsReceived slice is the empty list, a
      nil DataPayload is `None`. */
  datatype InformationDownlink = InformationDownlink(
    mType: MType,
    fOptsReceived: seq<Payload>,
    ack: bool,
    fPort: uint8,
    dataPayload: Option<seq<byte>>,
    fPending: bool)

  /** The zero value the record starts from. */
  const Zero: InformationDownlink := InformationDownlink(JoinRequest, [], false, 0, None, false)

  /** The three results of `GetDownlink` (a record or nil, a counter, an
      error or nil), or the index-out-of-range panic of reading the first
      element of an empty FRMPayload. */
  datatype Returned =
    | Returned(downlink: Option<InformationDownlink>, fCnt: uint32, err: Option<Error>)
    | IndexOutOfRange

  /** The early return every failure takes: no record, counter 0. */
  function Failed(e: Error): Returned {
    Returned(None, 0, Some(e))
  }

  /** The port the record reports: 0 for a frame without one. */
  function PortOf(m: MacPayload): uint8 {
    if m.fPort.Some? then m.fPort.value else 0
  }

  /** The error a counter check leaves: none when checking is disabled or
      the received counter is the expected one. */
  function CounterCheck(m: MacPayload, disableCounter: bool, counter: uint32): Option<Error> {
    if !disableCounter && m.fCnt != counter then Some(InvalidCounter(counter, m.fCnt)) else None
  }

  /** The record, and its error, of a frame whose MIC is valid, whose MAC
      payload is `m` and whose FOpts decoded to `fOpts`: what the port
      decides. */
  function Finish(d: InformationDownlink, m: MacPayload, lib: Library, fcErr: Option<Error>): Returned {
    if m.fPort.None? then Returned(Some(d), m.fCnt, fcErr)
    else if m.fPort.value == 0 then
      if lib.underNwkSKey.Err? then Failed(LibraryError(lib.underNwkSKey.error))
      else Returned(Some(d.(fOptsReceived := d.fOptsReceived + lib.underNwkSKey.value)), m.fCnt, fcErr)
    else if lib.underAppSKey.Err? then Failed(LibraryError(lib.underAppSKey.error))
    else if |lib.underAppSKey.value| == 0 then IndexOutOfRange
    else if !lib.underAppSKey.value[0].DataPayload? then Failed(DataPayloadExpected)
    else Returned(Some(d.(dataPayload := lib.underAppSKey.value[0].data)), m.fCnt, fcErr)
  }

  /** `GetDownlink` as a function of the frame, the library's results, the
      `disableCounter` setting and the expected counter; `Decisions` states
      what it decides. */
  function Decode(phy: PhyPayload, lib: Library, disableCounter: bool, counter: uint32): Returned
  {
    if lib.mic.Err? then Failed(LibraryError(lib.mic.error))
    else if !lib.mic.value then Failed(InvalidMic)
    else if phy.macPayload.None? then Failed(MacPayloadExpected)
    else
      var m := phy.macPayload.value;
      var fcErr := CounterCheck(m, disableCounter, counter);
      if lib.fOpts.Err? then Failed(LibraryError(lib.fOpts.error))
      else
        var d := Zero.(mType := phy.mType, fPending := m.fPending, ack := m.ack, fPort := PortOf(m),
                       fOptsReceived := if m.fPort != Some(0) then lib.fOpts.value else []);
        Finish(d, m, lib, fcErr)
  }

  /** The decisions of `GetDownlink`: the MIC is checked first, then the
      payload's type; a failure returns no record, counter 0 and an error; a
      counter mismatch is reported but does not stop the decoding; a missing
      port is 0; FOpts are kept unless the port is 0; port 0 carries MAC
      commands decrypted under NwkSKey, any other port data decrypted under
      AppSKey; a nonzero port with nothing decrypted panics. */
  lemma Decisions(phy: PhyPayload, lib: Library, disableCounter: bool, counter: uint32)
    ensures var r := Decode(phy, lib, disableCounter, counter);
            && (lib.mic.Err? ==> r == Failed(LibraryError(lib.mic.error)))
            && (lib.mic == Ok(false) ==> r == Failed(InvalidMic))
            && (lib.mic == Ok(true) && phy.macPayload.None? ==> r == Failed(MacPayloadExpected))
            && (lib.mic == Ok(true) && phy.macPayload.Some? && lib.fOpts.Err? ==> r == Failed(LibraryError(lib.fOpts.error)))
            && (r.Returned? && r.downlink.None? ==> r.fCnt == 0 && r.err.Some?)
            && (r.Returned? && r.downlink.Some? ==> lib.mic == Ok(true) && phy.macPayload.Some? && lib.fOpts.Ok?)
            && (r == Failed(DataPayloadExpected) && lib.mic == Ok(true) && phy.macPayload.Some? && lib.fOpts.Ok? ==>
                  PortOf(phy.macPayload.value) != 0 && lib.underAppSKey.Ok? && |lib.underAppSKey.value| > 0
                  && !lib.underAppSKey.value[0].DataPayload?)
            && (r.IndexOutOfRange? <==>
                  && lib.mic == Ok(true) && phy.macPayload.Some? && lib.fOpts.Ok?
                  && PortOf(phy.macPayload.value) != 0 && lib.underAppSKey == Ok([]))
  {
  }

  /** The record `GetDownlink` returns: the received counter, with the
      mismatch as the only error; the header copied, a missing port as 0;
      the FOpts unless the port is 0, the MAC commands decrypted under
      NwkSKey on port 0; data only on a nonzero port, as the first element
      decrypted under AppSKey. */
  lemma RecordContents(phy: PhyPayload, lib: Library, disableCounter: bool, counter: uint32)
    ensures var r := Decode(phy, lib, disableCounter, counter);
            r.Returned? && r.downlink.Some? ==>
              var m := phy.macPayload.value;
              var d := r.downlink.value;
              && phy.macPayload.Some?
              && r.fCnt == m.fCnt
              && r.err == CounterCheck(m, disableCounter, counter)
              && d.mType == phy.mType && d.ack == m.ack && d.fPending == m.fPending
              && d.fPort == PortOf(m)
              && (m.fPort != Some(0) ==> lib.fOpts.Ok? && d.fOptsReceived == lib.fOpts.value)
              && (m.fPort == Some(0) ==> lib.underNwkSKey.Ok? && d.fOptsReceived == lib.underNwkSKey.value)
              && (PortOf(m) == 0 ==> d.dataPayload.None?)
              && (PortOf(m) != 0 ==> lib.underAppSKey.Ok? && |lib.underAppSKey.value| > 0
                                     && lib.underAppSKey.value[0] == DataPayload(d.dataPayload))
  {
  }

  /** `GetDownlink`: checks the frame and fills the record in field by
      field, as the function `Decode` defines. */
  method GetDownlink(phy: PhyPayload, lib: Library, disableCounter: bool, counter: uint32) returns (r: Returned)
    ensures r == Decode(phy, lib, disableCounter, counter)
  {
    var downlink := Zero;
    var frameCounterError: Option<Error> := None;

    if lib.mic.Err? {
      return Failed(LibraryError(lib.mic.error));
    }
    if !lib.mic.value {
      return Failed(InvalidMic);
    }
    if phy.macPayload.None? {
      return Failed(MacPayloadExpected);
    }
    var macPL := phy.macPayload.value;

    if !disableCounter {
      if macPL.fCnt != counter {
        frameCounterError := Some(InvalidCounter(counter, macPL.fCnt));
      }
    }

    if lib.fOpts.Err? {
      return Failed(LibraryError(lib.fOpts.error));
    }
    var fOpts := lib.fOpts.value;

    downlink := downlink.(mType := phy.mType);
    downlink := downlink.(fPending := macPL.fPending);
    downlink := downlink.(ack := macPL.ack);
    if macPL.fPort.None? {
      downlink := downlink.(fPort := 0);
    } else {
      downlink := downlink.(fPort := macPL.fPort.value);
    }

    if |fOpts| != 0 {
      if macPL.fPort.None? || macPL.fPort.value != 0 {
        downlink := downlink.(fOptsReceived := downlink.fOptsReceived + fOpts);
      }
    }

    if macPL.fPort.Some? {
      if macPL.fPort.value == 0 {
        if lib.underNwkSKey.Err? {
          return Failed(LibraryError(lib.underNwkSKey.error));
        }
        downlink := downlink.(fOptsReceived := downlink.fOptsReceived + lib.underNwkSKey.value);
      } else {
        if lib.underAppSKey.Err? {
          return Failed(LibraryError(lib.underAppSKey.error));
        }
        var frm := lib.underAppSKey.value;
        if |frm| == 0 {
          return IndexOutOfRange;
        }
        if !frm[0].DataPayload? {
          return Failed(DataPayloadExpected);
        }
        downlink := downlink.(dataPayload := frm[0].data);
      }
    }

    assert downlink.fOptsReceived == Decode(phy, lib, disableCounter, counter).downlink.value.fOptsReceived;
    return Returned(Some(downlink), macPL.fCnt, frameCounterError);
  }

  /** The counter check only adds an error: with and without it a frame is
      decoded to the same record and the same returned counter, and without
      it no record comes with an error. */
  lemma CounterOnlyAddsError(phy: PhyPayload, lib: Library, counter: uint32)
    ensures var checked := Decode(phy, lib, false, counter);
            var unchecked := Decode(phy, lib, true, counter);
            && checked.Returned? == unchecked.Returned?
            && (checked.Returned? ==> checked.downlink == unchecked.downlink && checked.fCnt == unchecked.fCnt)
            && (unchecked.Returned? && unchecked.downlink.Some? ==> unchecked.err.None?)
  {
  }

  /** With counter checking disabled the expected counter plays no part. */
  lemma DisabledIgnoresCounter(phy: PhyPayload, lib: Library, c1: uint32, c2: uint32)
    ensures Decode(phy, lib, true, c1) == Decode(phy, lib, true, c2)
  {
  }

  /** A frame whose counter is the expected one is decoded without error,
      and a frame with another counter comes back with the mismatch and the
      received counter, whatever its record. */
  lemma CounterMismatch(phy: PhyPayload, lib: Library, counter: uint32)
    requires phy.macPayload.Some?
    ensures var r := Decode(phy, lib, false, counter);
            r.Returned? && r.downlink.Some? ==>
              (r.err.None? <==> phy.macPayload.value.fCnt == counter)
              && (r.err.Some? ==> r.err.value == InvalidCounter(counter, r.fCnt))
  {
  }

  /** Which key decrypts: a frame on port 0, or without a port, never reads
      the payload decrypted under AppSKey, and a frame on any other port, or
      without one, never reads the payload decrypted under NwkSKey. */
  lemma KeyOfPort(phy: PhyPayload, lib: Library, disableCounter: bool, counter: uint32, other: Result<seq<Payload>, string>)
    requires phy.macPayload.Some?
    ensures PortOf(phy.macPayload.value) == 0 ==>
              Decode(phy, lib.(underAppSKey := other), disableCounter, counter) == Decode(phy, lib, disableCounter, counter)
    ensures phy.macPayload.value.fPort != Some(0) ==>
              Decode(phy, lib.(underNwkSKey := other), disableCounter, counter) == Decode(phy, lib, disableCounter, counter)
  {
  }
}
