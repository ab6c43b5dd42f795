/** Validation of the client-chosen path in the `X-File-Path` header of the
    WAV upload (app.py:76-96).

    The header must match `^[a-zA-Z0-9_-]+/\d{4}-\d{2}-\d{2}/raw/\d{2}-\d{2}\.wav$`
    under Python's `re.match`, and then each `/`-separated segment must be
    free of `..` and must not start with `/` or `\`.
 */
module AudioPath {
  import opened Outcomes
  import opened Text

  /** `[a-zA-Z0-9_-]` */
  predicate IsIdChar(c: char) {
    ('a' <= c <= 'z') || ('A' <= c <= 'Z') || ('0' <= c <= '9') || c == '_' || c == '-'
  }

  /** `[a-zA-Z0-9_-]+` */
  predicate IsDeviceId(s: string) {
    |s| >= 1 && forall i :: 0 <= i < |s| ==> IsIdChar(s[i])
  }

  /** `\d{4}-\d{2}-\d{2}` (with `\d` read as an ASCII digit): the shape only, no calendar check. */
  predicate IsDateToken(s: string) {
    |s| == 10 && Digits(s[..4]) && s[4] == '-' && Digits(s[5..7]) && s[7] == '-' && Digits(s[8..])
  }

  /** `\d{2}-\d{2}`: the shape only, so `99-99` passes. */
  predicate IsSlotToken(s: string) {
    |s| == 5 && Digits(s[..2]) && s[2] == '-' && Digits(s[3..])
  }

  /** The pattern between its anchors. Device ids cannot hold `/`, so the
      id is everything in front of the fixed 25-character tail
      `/DDDD-DD-DD/raw/DD-DD.wav`. */
  predicate Shape(s: string) {
    && |s| > 25
    && IsDeviceId(s[..|s| - 25])
    && s[|s| - 25] == '/'
    && IsDateToken(s[|s| - 24..|s| - 14])
    && s[|s| - 14..|s| - 9] == "/raw/"
    && IsSlotToken(s[|s| - 9..|s| - 4])
    && s[|s| - 4..] == ".wav"
  }

  /** `re.match(pattern, s)`: the match is anchored at the start, and `$`
      matches at the very end or just before a final newline. */
  predicate PatternMatches(s: string) {
    Shape(s) || (|s| > 0 && s[|s| - 1] == '\n' && Shape(s[..|s| - 1]))
  }

  /** The path a well-behaved client sends: `device/date/raw/slot.wav`. */
  function Compose(device: string, date: string, slot: string): string {
    device + "/" + date + "/raw/" + slot + ".wav"
  }

  predicate WellFormedParts(device: string, date: string, slot: string) {
    IsDeviceId(device) && IsDateToken(date) && IsSlotToken(slot)
  }

  /** Every well-formed device id, date and slot compose to an accepted path. */
  lemma ComposeMatches(device: string, date: string, slot: string)
    requires WellFormedParts(device, date, slot)
    ensures Shape(Compose(device, date, slot))
    ensures PatternMatches(Compose(device, date, slot))
  {
    var s := Compose(device, date, slot);
    var n := |s|;
    assert s[..n - 25] == device;
    assert s[n - 24..n - 14] == date;
    assert s[n - 9..n - 4] == slot;
  }

  function DeviceOf(s: string): string requires Shape(s) { s[..|s| - 25] }
  function DateOf(s: string): string requires Shape(s) { s[|s| - 24..|s| - 14] }
  function SlotOf(s: string): string requires Shape(s) { s[|s| - 9..|s| - 4] }

  /** Every accepted path (without the newline) is such a composition: the
      pattern accepts exactly the composed paths. */
  lemma ShapeDecomposes(s: string)
    requires Shape(s)
    ensures WellFormedParts(DeviceOf(s), DateOf(s), SlotOf(s))
    ensures s == Compose(DeviceOf(s), DateOf(s), SlotOf(s))
  {
    var n := |s|;
    assert s == s[..n - 25] + [s[n - 25]] + s[n - 24..n - 14] + s[n - 14..n - 9] + s[n - 9..n - 4] + s[n - 4..];
  }

  /** A segment passes the per-part check of app.py:92. */
  predicate SegmentSafe(seg: string) {
    !Contains(seg, "..") && !StartsWith(seg, "/") && !StartsWith(seg, "\\")
  }

  /** The traversal guard: every `/`-separated part passes. */
  predicate TraversalSafe(s: string) {
    forall seg :: seg in Split(s, '/') ==> SegmentSafe(seg)
  }

  /** After splitting on `/` no part can start with `/`: that half of the
      guard never fires. */
  lemma SlashTestVacuous(s: string, seg: string)
    requires seg in Split(s, '/')
    ensures !StartsWith(seg, "/")
  {
  }

  /** The four parts of a composed path, in order. */
  lemma SplitCompose(device: string, date: string, slot: string, nl: string)
    requires WellFormedParts(device, date, slot)
    requires nl == "" || nl == "\n"
    ensures Split(Compose(device, date, slot) + nl, '/') == [device, date, "raw", slot + ".wav" + nl]
  {
    var last := slot + ".wav" + nl;
    DateChars(date);
    LastChars(slot, nl);
    assert Compose(device, date, slot) + nl == device + ['/'] + (date + ['/'] + ("raw" + ['/'] + last));
    SplitNoSep(last, '/');
    SplitAround("raw", last, '/');
    SplitAround(date, "raw" + ['/'] + last, '/');
    SplitAround(device, date + ['/'] + ("raw" + ['/'] + last), '/');
  }

  /** No two adjacent dots. */
  predicate NoDoubleDot(seg: string) {
    forall i :: 0 <= i < |seg| - 1 ==> !(seg[i] == '.' && seg[i + 1] == '.')
  }

  lemma NoDoubleDotSafe(seg: string)
    requires NoDoubleDot(seg)
    requires |seg| > 0 ==> seg[0] != '\\' && seg[0] != '/'
    ensures SegmentSafe(seg)
  {
    forall i | 0 <= i <= |seg| - 2 ensures !OccursAt(seg, "..", i) {
      assert seg[i..i + 2][0] == seg[i] && seg[i..i + 2][1] == seg[i + 1];
    }
  }

  /** Every character of a date token is a digit or a dash. */
  lemma DateChars(date: string)
    requires IsDateToken(date)
    ensures forall i :: 0 <= i < |date| ==> IsDigit(date[i]) || date[i] == '-'
  {
    forall i | 0 <= i < |date| ensures IsDigit(date[i]) || date[i] == '-' {
      if i < 4 {
        assert date[..4][i] == date[i];
      } else if 5 <= i < 7 {
        assert date[5..7][i - 5] == date[i];
      } else if 8 <= i {
        assert date[8..][i - 8] == date[i];
      }
    }
  }

  /** The last part `slot.wav` (plus the tolerated newline) holds a single
      dot, at index 5, and starts with a digit. */
  lemma LastChars(slot: string, nl: string)
    requires IsSlotToken(slot)
    requires nl == "" || nl == "\n"
    ensures var last := slot + ".wav" + nl;
      && IsDigit(last[0])
      && forall i :: 0 <= i < |last| ==> (last[i] == '.' <==> i == 5) && last[i] != '/'
  {
    var last := slot + ".wav" + nl;
    forall i | 0 <= i < |last| ensures (last[i] == '.' <==> i == 5) && last[i] != '/' {
      if i < 2 {
        assert slot[..2][i] == slot[i];
      } else if 3 <= i < 5 {
        assert slot[3..][i - 3] == slot[i];
      }
    }
    assert slot[..2][0] == last[0];
  }

  lemma DeviceSafe(device: string)
    requires IsDeviceId(device)
    ensures SegmentSafe(device)
  {
    assert NoDoubleDot(device) by {
      forall i | 0 <= i < |device| - 1 ensures device[i] != '.' {
        assert IsIdChar(device[i]);
      }
    }
    NoDoubleDotSafe(device);
  }

  lemma DateSafe(date: string)
    requires IsDateToken(date)
    ensures SegmentSafe(date)
  {
    DateChars(date);
    NoDoubleDotSafe(date);
  }

  lemma LastSafe(slot: string, nl: string)
    requires IsSlotToken(slot)
    requires nl == "" || nl == "\n"
    ensures SegmentSafe(slot + ".wav" + nl)
  {
    LastChars(slot, nl);
    NoDoubleDotSafe(slot + ".wav" + nl);
  }

  /** An accepted header: a shaped path `t`, and the newline `$` let
      through, if any. */
  lemma Accepted(s: string) returns (t: string, nl: string)
    requires PatternMatches(s)
    ensures Shape(t) && s == t + nl
    ensures nl == (if Shape(s) then "" else "\n")
    ensures t == (if Shape(s) then s else s[..|s| - 1])
    ensures WellFormedParts(DeviceOf(t), DateOf(t), SlotOf(t))
    ensures Split(s, '/') == [DeviceOf(t), DateOf(t), "raw", SlotOf(t) + ".wav" + nl]
  {
    t, nl := if Shape(s) then s else s[..|s| - 1], if Shape(s) then "" else "\n";
    assert s == t + nl;
    ShapeDecomposes(t);
    SplitCompose(DeviceOf(t), DateOf(t), SlotOf(t), nl);
  }

  /** Whatever the pattern accepts, the traversal guard accepts too: the
      second check of the upload handler can never reject. */
  lemma PatternImpliesTraversalSafe(s: string)
    requires PatternMatches(s)
    ensures TraversalSafe(s)
  {
    var t, nl := Accepted(s);
    DeviceSafe(DeviceOf(t));
    DateSafe(DateOf(t));
    NoDoubleDotSafe("raw");
    LastSafe(SlotOf(t), nl);
  }

  /** The upload handler's header checks (app.py:77-96, 117-123). A missing
      or empty header, a pattern mismatch and a traversal attempt are all
      400; on success the path's `/`-separated parts are returned. */
  function Validate(header: Option<string>): (r: Result<seq<string>>)
    ensures r.Err? ==> r.failure == BadRequest
    ensures r.Ok? <==> header.Some? && header.value != "" && PatternMatches(header.value) && TraversalSafe(header.value)
    ensures r.Ok? ==> Join(r.value, '/') == header.value
  {
    if header.None? || header.value == "" then Err(BadRequest)
    else if !PatternMatches(header.value) then Err(BadRequest)
    else if !TraversalSafe(header.value) then Err(BadRequest)
    else Ok(Split(header.value, '/'))
  }

  /** What an accepted header is made of: a device id, a date, `raw`, and
      the slot's `.wav` name (with the newline `$` let through, if any). */
  lemma ValidateParts(s: string)
    requires Validate(Some(s)).Ok?
    ensures var parts := Validate(Some(s)).value;
      && |parts| == 4
      && IsDeviceId(parts[0]) && IsDateToken(parts[1]) && parts[2] == "raw"
      && (if Shape(s) then parts[3] == SlotOf(s) + ".wav"
          else parts[3] == SlotOf(s[..|s| - 1]) + ".wav\n")
  {
    var t, nl := Accepted(s);
    assert Validate(Some(s)).value == Split(s, '/');
  }

  /** The header check accepts exactly what the pattern accepts. */
  lemma ValidateIffPattern(s: string)
    ensures Validate(Some(s)).Ok? <==> PatternMatches(s)
  {
    if PatternMatches(s) {
      PatternImpliesTraversalSafe(s);
    }
  }

  /** A path with a `..` anywhere in one of its parts is rejected with 400,
      whatever the other parts look like. */
  lemma DotDotRejected(s: string, seg: string)
    requires seg in Split(s, '/')
    requires Contains(seg, "..")
    ensures Validate(Some(s)) == Err(BadRequest)
  {
  }

  lemma ExampleDate()
    ensures IsDateToken("2025-06-21")
  {
    var d := "2025-06-21";
    assert d[..4] == "2025" && d[5..7] == "06" && d[8..] == "21";
  }

  lemma ExampleSlots()
    ensures IsSlotToken("08-00") && IsSlotToken("99-99")
  {
    assert "08-00"[..2] == "08" && "08-00"[3..] == "00";
    assert "99-99"[..2] == "99" && "99-99"[3..] == "99";
  }

  /** Examples: zero-padded fields and the slot dash are required, and the
      slot is not range-checked. */
  lemma ExampleParts()
    ensures WellFormedParts("dev1", "2025-06-21", "08-00")
    ensures WellFormedParts("dev1", "2025-06-21", "99-99")
  {
    ExampleDate();
    ExampleSlots();
    assert IsDeviceId("dev1");
  }

  lemma ExamplePaths()
    ensures Compose("dev1", "2025-06-21", "08-00") == "dev1/2025-06-21/raw/08-00.wav"
    ensures Compose("dev1", "2025-06-21", "99-99") == "dev1/2025-06-21/raw/99-99.wav"
  {
    var head := "dev1/2025-06-21/raw/";
    assert "dev1" + "/" + "2025-06-21" + "/raw/" == head;
    assert head + "08-00" + ".wav" == "dev1/2025-06-21/raw/08-00.wav";
    assert head + "99-99" + ".wav" == "dev1/2025-06-21/raw/99-99.wav";
  }

  /** A regular path is accepted, and so is a slot no clock shows. */
  lemma AcceptsExamples()
    ensures PatternMatches("dev1/2025-06-21/raw/08-00.wav")
    ensures PatternMatches("dev1/2025-06-21/raw/99-99.wav")
  {
    ExampleParts();
    ExamplePaths();
    ComposeMatches("dev1", "2025-06-21", "08-00");
    ComposeMatches("dev1", "2025-06-21", "99-99");
  }

  /** `$` lets one final newline through. */
  lemma AcceptsTrailingNewline()
    ensures PatternMatches("dev1/2025-06-21/raw/08-00.wav\n")
  {
    var s := "dev1/2025-06-21/raw/08-00.wav\n";
    AcceptsExamples();
    assert s[..|s| - 1] == "dev1/2025-06-21/raw/08-00.wav";
  }

  lemma RejectsExamples()
    ensures !PatternMatches("dev1/2025-6-21/raw/08-00.wav")
    ensures !PatternMatches("dev1/2025-06-21/raw/0800.wav")
    ensures !PatternMatches("../2025-06-21/raw/08-00.wav")
  {
    var bad := "../2025-06-21/raw/08-00.wav";
    assert !IsIdChar(bad[0]);
  }
}
