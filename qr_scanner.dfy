/**
 * The QR scanner service: reading a participant id out of a scanned payload
 * (prefixed or raw, trimmed either way) and the per-frame debounce of the
 * detection loop.  Camera access, the barcode detector and the animation
 * frame loop are outside the model; each detected frame is one call of
 * `BarcodeScanner.DetectFrame` with the clock reading passed in.
 */
module QrScanner {
  import opened Types
  import opened Text
  import Constants

  /** A successful scan: the participant id, when it was read, and the payload it came from. */
  datatype ScanResult = ScanResult(participantId: string, timestamp: int, raw: string)

  /** The candidate id: the trimmed remainder after the prefix, or the whole trimmed payload. */
  function ExtractParticipantId(rawData: string): (id: string)
    ensures IsTrimmed(id)
    ensures exists i: nat :: OccursAt(rawData, id, i)
  {
    var p := Constants.QR_PREFIX;
    if StartsWith(rawData, p) then
      var id := Trim(rawData[|p|..]);
      OccursInSuffix(rawData, |p|, id);
      id
    else
      Trim(rawData)
  }

  /** What occurs in a suffix occurs in the whole string. */
  lemma OccursInSuffix(s: string, off: nat, t: string)
    requires off <= |s| && exists i: nat :: OccursAt(s[off..], t, i)
    ensures exists i: nat :: OccursAt(s, t, i)
  {
    var i: nat :| OccursAt(s[off..], t, i);
    assert s[off + i..off + i + |t|] == s[off..][i..i + |t|];
    assert OccursAt(s, t, off + i);
  }

  /**
   * Parses a scanned payload.  The empty payload and one whose candidate id
   * is all whitespace give nothing; otherwise the result carries the
   * non-empty trimmed id, the time of the scan and the payload unchanged.
   */
  function ParseQRCode(rawData: string, now: int): (r: Option<ScanResult>)
    ensures rawData == [] ==> r.None?
    ensures StartsWith(rawData, Constants.QR_PREFIX) ==>
      (r.Some? <==> exists k :: |Constants.QR_PREFIX| <= k < |rawData| && !IsSpace(rawData[k])) &&
      (r.Some? ==> r.value.participantId == Trim(rawData[|Constants.QR_PREFIX|..]))
    ensures !StartsWith(rawData, Constants.QR_PREFIX) ==>
      (r.Some? <==> exists k :: 0 <= k < |rawData| && !IsSpace(rawData[k])) &&
      (r.Some? ==> r.value.participantId == Trim(rawData))
    ensures r.Some? ==> r.value.participantId != [] && IsTrimmed(r.value.participantId)
    ensures r.Some? ==> r.value.raw == rawData && r.value.timestamp == now
    ensures r.Some? ==> exists i: nat :: OccursAt(rawData, r.value.participantId, i)
  {
    var p := Constants.QR_PREFIX;
    if rawData == [] then None
    else
      var id := ExtractParticipantId(rawData);
      if StartsWith(rawData, p) then
        var rest := rawData[|p|..];
        assert forall k :: 0 <= k < |rest| ==> rest[k] == rawData[|p| + k];
        if id == [] then None else Some(ScanResult(id, now, rawData))
      else
        if id == [] then None else Some(ScanResult(id, now, rawData))
  }

  /** A prefixed, already trimmed, non-empty id reads back as itself. */
  lemma PrefixedRoundTrip(id: string, now: int)
    requires id != [] && IsTrimmed(id)
    ensures ParseQRCode(Constants.QR_PREFIX + id, now) == Some(ScanResult(id, now, Constants.QR_PREFIX + id))
  {
    var raw := Constants.QR_PREFIX + id;
    assert raw[..|Constants.QR_PREFIX|] == Constants.QR_PREFIX;
    assert raw[|Constants.QR_PREFIX|..] == id;
    TrimTrimmed(id);
  }

  /** An unprefixed, already trimmed, non-empty id is accepted as it is. */
  lemma RawRoundTrip(id: string, now: int)
    requires id != [] && IsTrimmed(id)
    requires !StartsWith(id, Constants.QR_PREFIX)
    ensures ParseQRCode(id, now) == Some(ScanResult(id, now, id))
  {
    TrimTrimmed(id);
  }

  /** Whatever id a scan yields, its prefixed encoding yields the same id again. */
  lemma ReencodeStable(rawData: string, now: int, later: int)
    requires ParseQRCode(rawData, now).Some?
    ensures var id := ParseQRCode(rawData, now).value.participantId;
      ParseQRCode(Constants.QR_PREFIX + id, later).Some? &&
      ParseQRCode(Constants.QR_PREFIX + id, later).value.participantId == id
  {
    PrefixedRoundTrip(ParseQRCode(rawData, now).value.participantId, later);
  }

  /** A leading space defeats the prefix test, so a prefix after it stays part of the id. */
  lemma LeadingSpace(id: string, now: int)
    requires id != [] && IsTrimmed(id)
    ensures ParseQRCode([' '] + id, now) == Some(ScanResult(id, now, [' '] + id))
  {
    var raw := [' '] + id;
    assert raw[0] != Constants.QR_PREFIX[0];
    assert raw[1..] == id;
    TrimTrimmed(id);
  }

  /** The payload " XRNODE:p001" yields the id "XRNODE:p001". */
  lemma LeadingSpaceExample(now: int)
    ensures ParseQRCode(" XRNODE:p001", now).Some?
    ensures ParseQRCode(" XRNODE:p001", now).value.participantId == "XRNODE:p001"
  {
    assert " XRNODE:p001" == [' '] + "XRNODE:p001";
    LeadingSpace("XRNODE:p001", now);
  }

  /** Two detections of the same payload closer than this are one detection. */
  const DEBOUNCE_MS: int := 2000

  /** A detected payload is handled when it differs from the last one or the last one is more than `DEBOUNCE_MS` old. */
  function ShouldProcess(lastCode: string, lastTime: int, rawValue: string, now: int): (process: bool)
    ensures rawValue != lastCode ==> process
    ensures rawValue == lastCode ==> (process <==> now > lastTime + DEBOUNCE_MS)
  {
    rawValue != lastCode || now - lastTime > DEBOUNCE_MS
  }

  /** One scanning session with its debounce memory. */
  class BarcodeScanner {
    var scannerActive: bool
    var lastDetectedCode: string
    var lastDetectionTime: int

    /** Starting a scan: active, and no code seen yet. */
    constructor ()
      ensures scannerActive && lastDetectedCode == "" && lastDetectionTime == 0
    {
      scannerActive := true;
      lastDetectedCode := "";
      lastDetectionTime := 0;
    }

    /** The cleanup callback and stopping the camera both switch scanning off. */
    method Stop()
      modifies this
      ensures !scannerActive
      ensures lastDetectedCode == old(lastDetectedCode) && lastDetectionTime == old(lastDetectionTime)
    {
      scannerActive := false;
    }

    /**
     * One detection frame: `rawValue` is the first barcode's payload, or
     * nothing when no barcode was seen.  A payload that passes the debounce
     * becomes the last one seen, even when it then fails to parse; the
     * result is the scan reported to the listener, if any.
     */
    method DetectFrame(rawValue: Option<string>, now: int) returns (detected: Option<ScanResult>)
      modifies this
      ensures scannerActive == old(scannerActive)
      ensures !old(scannerActive) || rawValue.None? ||
              !ShouldProcess(old(lastDetectedCode), old(lastDetectionTime), rawValue.value, now) ==>
        detected.None? &&
        lastDetectedCode == old(lastDetectedCode) && lastDetectionTime == old(lastDetectionTime)
      ensures old(scannerActive) && rawValue.Some? &&
              ShouldProcess(old(lastDetectedCode), old(lastDetectionTime), rawValue.value, now) ==>
        lastDetectedCode == rawValue.value && lastDetectionTime == now &&
        detected == ParseQRCode(rawValue.value, now)
      ensures detected.Some? ==> detected.value.raw == rawValue.value && detected.value.participantId != []
    {
      detected := None;
      if !scannerActive {
        return;
      }
      if rawValue.Some? {
        var raw := rawValue.value;
        if raw != lastDetectedCode || now - lastDetectionTime > DEBOUNCE_MS {
          lastDetectedCode := raw;
          lastDetectionTime := now;
          detected := ParseQRCode(raw, now);
        }
      }
    }
  }

  /**
   * A fresh scanner reports a payload, ignores it again 1500 ms later, and
   * reports it once more 2001 ms after the first sighting.
   */
  method DebounceExample() returns (first: Option<ScanResult>, second: Option<ScanResult>, third: Option<ScanResult>)
    ensures first.Some? && first.value.participantId == "p001"
    ensures second.None?
    ensures third.Some? && third.value.timestamp == 12001
  {
    var scanner := new BarcodeScanner();
    var code := Constants.QR_PREFIX + "p001";
    PrefixedRoundTrip("p001", 10000);
    PrefixedRoundTrip("p001", 12001);
    first := scanner.DetectFrame(Some(code), 10000);
    second := scanner.DetectFrame(Some(code), 11500);
    third := scanner.DetectFrame(Some(code), 12001);
  }
}
