/** Retry contexts: buildAdaptiveRetryContext and validateRetryContext of src/core/adaptive-session.js. */
module RetryContexts {
  import opened Basics
  import opened Paths
  import opened ContextPackContract
  import opened Utf8

  /** A UTF-16 code unit. Diagnostics come from outside, so surrogates need not be paired. */
  newtype Unit = x: int | 0 <= x < 0x1_0000

  type Text = seq<Unit>

  const MAX_RETRY_CHANGES := 64
  const MAX_DIAGNOSTIC_BYTES := 4096
  const MAX_NAME_BYTES := 128

  predicate High(u: Unit) {
    0xD800 <= u <= 0xDBFF
  }

  predicate Low(u: Unit) {
    0xDC00 <= u <= 0xDFFF
  }

  /** Buffer.byteLength: a surrogate pair takes four bytes, a lone surrogate the three of its replacement. */
  function ByteLength(text: Text): nat {
    if text == [] then 0
    else if |text| >= 2 && High(text[0]) && Low(text[1]) then 4 + ByteLength(text[2..])
    else (if text[0] < 0x80 then 1 else if text[0] < 0x800 then 2 else 3) + ByteLength(text[1..])
  }

  // ---------- the bytes that are counted ----------

  /** A code point as UTF-8 writes it (RFC 3629, section 3). */
  function PointBytes(point: nat): Bytes
    requires point < 0x11_0000
  {
    if point < 0x80 then [point as byte]
    else if point < 0x800 then [(0xC0 + point / 0x40) as byte, (0x80 + point % 0x40) as byte]
    else if point < 0x1_0000 then
      [(0xE0 + point / 0x1000) as byte, (0x80 + point / 0x40 % 0x40) as byte, (0x80 + point % 0x40) as byte]
    else
      [(0xF0 + point / 0x4_0000) as byte, (0x80 + point / 0x1000 % 0x40) as byte, (0x80 + point / 0x40 % 0x40) as byte,
       (0x80 + point % 0x40) as byte]
  }

  const REPLACEMENT: nat := 0xFFFD

  /** A surrogate pair is one code point, and a lone surrogate becomes the replacement character. */
  function Encoded(text: Text): Bytes {
    if text == [] then []
    else if |text| >= 2 && High(text[0]) && Low(text[1]) then
      PointBytes(0x1_0000 + (text[0] as int - 0xD800) * 0x400 + (text[1] as int - 0xDC00)) + Encoded(text[2..])
    else
      PointBytes(if High(text[0]) || Low(text[0]) then REPLACEMENT else text[0] as int) + Encoded(text[1..])
  }

  lemma PointIsOneCharacter(point: nat, rest: Bytes)
    requires point < 0x11_0000 && !(0xD800 <= point <= 0xDFFF)
    ensures CharLength(PointBytes(point) + rest) == |PointBytes(point)|
    ensures |PointBytes(point)|
            == if point < 0x80 then 1 else if point < 0x800 then 2 else if point < 0x1_0000 then 3 else 4
  {
    var whole := PointBytes(point) + rest;
    if 0x800 <= point < 0x1_0000 {
      assert whole[0] == (0xE0 + point / 0x1000) as byte && whole[1] == (0x80 + point / 0x40 % 0x40) as byte;
    }
  }

  /** What is counted is the well-formed text that is stored. */
  lemma {:induction false} LengthIsEncoded(text: Text)
    ensures ValidUtf8(Encoded(text)) && |Encoded(text)| == ByteLength(text)
  {
    hide CharLength, PointBytes;
    if text != [] {
      var pair := |text| >= 2 && High(text[0]) && Low(text[1]);
      var rest := if pair then text[2..] else text[1..];
      var point := if pair then 0x1_0000 + (text[0] as int - 0xD800) * 0x400 + (text[1] as int - 0xDC00)
      else if High(text[0]) || Low(text[0]) then REPLACEMENT else text[0] as int;
      LengthIsEncoded(rest);
      PointIsOneCharacter(point, Encoded(rest));
      var whole := PointBytes(point) + Encoded(rest);
      assert whole[|PointBytes(point)|..] == Encoded(rest);
    }
  }

  /** A field as it arrives: absent, a string, or something that is not a string. */
  datatype Field = Missing | String(text: Text) | NotString

  /** `field ?? fallback`, read as text; what is not a string counts as empty. */
  function TextOf(field: Field, fallback: Text): Text {
    match field
    case Missing => fallback
    case String(text) => text
    case NotString => []
  }

  /** The longest cut of the text, unit by unit from the end, that fits. */
  function Bounded(text: Text, maxBytes: nat): (r: Text)
    ensures r <= text && ByteLength(r) <= maxBytes
    decreases |text|
  {
    if ByteLength(text) <= maxBytes then text
    else Bounded(text[..|text| - 1], maxBytes)
  }

  /** boundedUtf8: nothing longer than the result fits. */
  method BoundedUtf8(text: Text, maxBytes: nat) returns (output: Text)
    ensures output == Bounded(text, maxBytes)
    ensures forall n :: |output| < n <= |text| ==> ByteLength(text[..n]) > maxBytes
  {
    output := text;
    assert text[..|text|] == text;
    while ByteLength(output) > maxBytes
      invariant output <= text && Bounded(output, maxBytes) == Bounded(text, maxBytes)
      invariant forall n :: |output| < n <= |text| ==> ByteLength(text[..n]) > maxBytes
      decreases |output|
    {
      assert text[..|output|] == output;
      output := output[..|output| - 1];
    }
  }

  lemma BoundedIsFixed(text: Text, maxBytes: nat)
    ensures Bounded(Bounded(text, maxBytes), maxBytes) == Bounded(text, maxBytes)
    ensures Bounded(text, maxBytes) == text <==> ByteLength(text) <= maxBytes
  {
  }

  datatype CandidateChange = CandidateChange(path: string, sha256: string)

  /** What a child hands back about its failed attempt. */
  datatype Diagnostics = Diagnostics(adapterId: Field, code: Field, message: Field)

  datatype StoredDiagnostics = StoredDiagnostics(adapterId: Text, code: Text, message: Text, truncated: bool)

  datatype PriorAttempt = PriorAttempt(attemptId: string, childRunId: string, evidence: string)

  datatype RetryContext = RetryContext(
    prior: PriorAttempt, source: Sha256<seq<SourceEntry>>, contextPackSha256: PackSha256,
    candidateChanges: seq<CandidateChange>, diagnostics: StoredDiagnostics, contextPack: ContextPack)

  /** The screens of the ContextPack contract and the credential screen on text. */
  datatype Checks = Checks(screens: Screens, credentialText: Text -> bool, defaultCode: Text, defaultAdapter: Text)

  predicate HexDigit(c: char) {
    '0' <= c <= '9' || 'a' <= c <= 'f'
  }

  predicate IsSha256Hex(s: string) {
    |s| == 64 && forall i :: 0 <= i < |s| ==> HexDigit(s[i])
  }

  const ROOT: seq<string> := ["adaptive-session-root"]

  function RetryChange(change: CandidateChange): Result<CandidateChange> {
    match NormalizeRelativePath(ROOT, change.path)
    case Err(e) => Err(e)
    case Ok(path) => if IsSha256Hex(change.sha256) then Ok(CandidateChange(path, change.sha256)) else Err(SafetyRefusal)
  }

  predicate Names(changes: seq<CandidateChange>, path: string) {
    exists i :: 0 <= i < |changes| && changes[i].path == path
  }

  function CollectChanges(changes: seq<CandidateChange>): Result<seq<CandidateChange>> {
    if changes == [] then Ok([])
    else
      match CollectChanges(changes[..|changes| - 1])
      case Err(e) => Err(e)
      case Ok(before) =>
        match RetryChange(changes[|changes| - 1])
        case Err(e) => Err(e)
        case Ok(change) => if Names(before, change.path) then Err(SafetyRefusal) else Ok(before + [change])
  }

  /** retryChanges. */
  function RetryChanges(changes: seq<CandidateChange>): Result<seq<CandidateChange>> {
    if |changes| > MAX_RETRY_CHANGES then Err(SafetyRefusal) else CollectChanges(changes)
  }

  /** buildAdaptiveRetryContext. */
  function Build(checks: Checks, contextPack: ContextPack, prior: PriorAttempt, changes: seq<CandidateChange>,
                 diagnostics: Diagnostics): Result<RetryContext>
  {
    if !ValidContextPack(checks.screens, contextPack) then Err(UsageError)
    else
      var message := Bounded(TextOf(diagnostics.message, []), MAX_DIAGNOSTIC_BYTES);
      var code := Bounded(TextOf(diagnostics.code, checks.defaultCode), MAX_NAME_BYTES);
      var adapterId := Bounded(TextOf(diagnostics.adapterId, checks.defaultAdapter), MAX_NAME_BYTES);
      if checks.credentialText(message) then Err(SafetyRefusal)
      else if code == [] || adapterId == [] then Err(SafetyRefusal)
      else
        match RetryChanges(changes)
        case Err(e) => Err(e)
        case Ok(stored) =>
          Ok(RetryContext(prior, contextPack.source, PackSha256(contextPack), stored,
                          StoredDiagnostics(adapterId, code, message, Truncates(diagnostics.message)), contextPack))
  }

  /** The stored message is not what arrived: too long, or not a string at all. */
  predicate Truncates(message: Field) {
    match message
    case Missing => false
    case String(text) => Bounded(text, MAX_DIAGNOSTIC_BYTES) != text
    case NotString => true
  }

  function Rebuild(checks: Checks, value: RetryContext): Result<RetryContext> {
    Build(checks, value.contextPack, value.prior, value.candidateChanges,
          Diagnostics(String(value.diagnostics.adapterId), String(value.diagnostics.code),
                      String(value.diagnostics.message)))
  }

  /** validateRetryContext on a value that is not null. */
  function Validate(checks: Checks, value: RetryContext, contextPackSha256: PackSha256): Result<RetryContext> {
    if value.contextPackSha256 != contextPackSha256 then Err(SafetyRefusal)
    else
      match Rebuild(checks, value)
      case Err(e) => Err(e)
      case Ok(rebuilt) => if rebuilt == value then Ok(rebuilt) else Err(SafetyRefusal)
  }

  lemma {:induction false} CollectIsIdempotent(changes: seq<CandidateChange>)
    requires CollectChanges(changes).Ok?
    ensures |CollectChanges(changes).value| == |changes|
    ensures CollectChanges(CollectChanges(changes).value) == CollectChanges(changes)
  {
    hide NormalizeRelativePath, IsNormalized;
    if changes != [] {
      var n := |changes| - 1;
      CollectIsIdempotent(changes[..n]);
      var before := CollectChanges(changes[..n]).value;
      var change := RetryChange(changes[n]).value;
      NormalizeIsIdempotent(ROOT, changes[n].path);
      assert RetryChange(change) == Ok(change);
      assert (before + [change])[..n] == before;
    }
  }

  lemma DefaultsAreShort(checks: Checks, diagnostics: Diagnostics)
    ensures Bounded(Bounded(TextOf(diagnostics.code, checks.defaultCode), MAX_NAME_BYTES), MAX_NAME_BYTES)
            == Bounded(TextOf(diagnostics.code, checks.defaultCode), MAX_NAME_BYTES)
    ensures Bounded(Bounded(TextOf(diagnostics.adapterId, checks.defaultAdapter), MAX_NAME_BYTES), MAX_NAME_BYTES)
            == Bounded(TextOf(diagnostics.adapterId, checks.defaultAdapter), MAX_NAME_BYTES)
    ensures Bounded(Bounded(TextOf(diagnostics.message, []), MAX_DIAGNOSTIC_BYTES), MAX_DIAGNOSTIC_BYTES)
            == Bounded(TextOf(diagnostics.message, []), MAX_DIAGNOSTIC_BYTES)
  {
  }

  // ---------- what is stored ----------

  /** The longest beginning of the text that fits. */
  predicate LongestCut(cut: Text, text: Text, maxBytes: nat) {
    && cut <= text && ByteLength(cut) <= maxBytes
    && forall n :: |cut| < n <= |text| ==> ByteLength(text[..n]) > maxBytes
  }

  /** What is stored of a field: as much of the text given as fits, or of the default where nothing was given. */
  predicate Keeps(stored: Text, given: Field, byDefault: Text, maxBytes: nat) {
    match given
    case Missing => LongestCut(stored, byDefault, maxBytes)
    case String(text) => LongestCut(stored, text, maxBytes)
    case NotString => stored == []
  }

  lemma {:induction false} BoundedIsLongest(text: Text, maxBytes: nat)
    ensures LongestCut(Bounded(text, maxBytes), text, maxBytes)
    decreases |text|
  {
    assert text[..|text|] == text;
    if ByteLength(text) > maxBytes {
      var shorter := text[..|text| - 1];
      BoundedIsLongest(shorter, maxBytes);
      forall n | |Bounded(text, maxBytes)| < n <= |text|
        ensures ByteLength(text[..n]) > maxBytes
      {
        if n < |text| {
          assert shorter[..n] == text[..n];
        }
      }
    }
  }

  lemma LongestIsUnique(one: Text, two: Text, given: Field, byDefault: Text, maxBytes: nat)
    requires Keeps(one, given, byDefault, maxBytes) && Keeps(two, given, byDefault, maxBytes)
    ensures one == two
  {
    hide ByteLength;
    if !given.NotString? {
      var text := if given.String? then given.text else byDefault;
      assert text[..|one|] == one && text[..|two|] == two;
    }
  }

  lemma FieldIsKept(field: Field, byDefault: Text, maxBytes: nat)
    ensures Keeps(Bounded(TextOf(field, byDefault), maxBytes), field, byDefault, maxBytes)
  {
    hide ByteLength;
    BoundedIsLongest(TextOf(field, byDefault), maxBytes);
  }

  predicate SameChange(given: CandidateChange, stored: CandidateChange) {
    NormalizeRelativePath(ROOT, given.path) == Ok(stored.path) && stored.sha256 == given.sha256
  }

  /** The changes given, in their order, under normalized paths. */
  predicate StoresChanges(given: seq<CandidateChange>, stored: seq<CandidateChange>) {
    |stored| == |given| && forall i :: 0 <= i < |given| ==> SameChange(given[i], stored[i])
  }

  /** Every path lies in the workspace, every hash is one, and no file is named twice. */
  predicate GoodChanges(changes: seq<CandidateChange>) {
    && (forall i :: 0 <= i < |changes| ==>
          NormalizeRelativePath(ROOT, changes[i].path).Ok? && IsSha256Hex(changes[i].sha256))
    && forall i, j :: 0 <= i < j < |changes| ==>
         NormalizeRelativePath(ROOT, changes[i].path) != NormalizeRelativePath(ROOT, changes[j].path)
  }

  /** The first change that is not good names nothing at all. */
  predicate BreaksOnNothing(changes: seq<CandidateChange>, n: nat) {
    n < |changes| && GoodChanges(changes[..n]) && changes[n].path == ""
  }

  /** The paths are read in order; an empty one is an error of another kind than all others. */
  lemma {:induction false} CollectErrs(changes: seq<CandidateChange>)
    ensures CollectChanges(changes).Err? ==> CollectChanges(changes).error in {UsageError, SafetyRefusal}
    ensures CollectChanges(changes) == Err(UsageError) <==> exists n: nat :: BreaksOnNothing(changes, n)
  {
    hide NormalizeRelativePath, IsSha256Hex;
    if changes != [] {
      var n := |changes| - 1;
      var before := changes[..n];
      CollectErrs(before);
      CollectsExactly(before);
      OnlyNothingIsMisuse(changes[n].path);
      forall m: nat | m < n
        ensures BreaksOnNothing(before, m) <==> BreaksOnNothing(changes, m)
      {
        assert before[..m] == changes[..m] && before[m] == changes[m];
      }
      if CollectChanges(before) == Err(UsageError) {
        var m: nat :| BreaksOnNothing(before, m);
        assert BreaksOnNothing(changes, m);
      }
      assert BreaksOnNothing(changes, n) <==> GoodChanges(before) && changes[n].path == "";
    }
  }

  lemma OnlyNothingIsMisuse(path: string)
    ensures NormalizeRelativePath(ROOT, path).Err? ==>
              NormalizeRelativePath(ROOT, path).error == if path == "" then UsageError else SafetyRefusal
    ensures path == "" ==> NormalizeRelativePath(ROOT, path).Err?
  {
    hide Resolve, Split, Join;
  }

  lemma {:induction false} CollectsExactly(changes: seq<CandidateChange>)
    ensures CollectChanges(changes).Ok? <==> GoodChanges(changes)
    ensures CollectChanges(changes).Ok? ==> StoresChanges(changes, CollectChanges(changes).value)
  {
    hide NormalizeRelativePath, IsSha256Hex;
    if changes != [] {
      var n := |changes| - 1;
      var before := changes[..n];
      CollectsExactly(before);
      if CollectChanges(before).Ok? && RetryChange(changes[n]).Ok? {
        NamesGiven(before, CollectChanges(before).value, RetryChange(changes[n]).value.path);
      }
      if GoodChanges(changes) {
        assert GoodChanges(before) && NormalizeRelativePath(ROOT, changes[n].path).Ok?;
      }
    }
  }

  lemma NamesGiven(given: seq<CandidateChange>, stored: seq<CandidateChange>, path: string)
    requires StoresChanges(given, stored)
    ensures Names(stored, path) <==>
              exists i :: 0 <= i < |given| && NormalizeRelativePath(ROOT, given[i].path) == Ok(path)
  {
    hide NormalizeRelativePath;
    if i :| 0 <= i < |given| && NormalizeRelativePath(ROOT, given[i].path) == Ok(path) {
      assert SameChange(given[i], stored[i]);
    }
    if i :| 0 <= i < |stored| && stored[i].path == path {
      assert SameChange(given[i], stored[i]);
    }
  }

  /** The context holds what the child handed back, and is bound to the attempt and the ContextPack. */
  predicate HoldsGiven(checks: Checks, contextPack: ContextPack, prior: PriorAttempt, changes: seq<CandidateChange>,
                       diagnostics: Diagnostics, context: RetryContext)
  {
    && context.prior == prior && context.contextPack == contextPack && context.source == contextPack.source
    && context.contextPackSha256 == PackSha256(contextPack)
    && StoresChanges(changes, context.candidateChanges)
    && Keeps(context.diagnostics.message, diagnostics.message, [], MAX_DIAGNOSTIC_BYTES)
    && Keeps(context.diagnostics.code, diagnostics.code, checks.defaultCode, MAX_NAME_BYTES)
    && Keeps(context.diagnostics.adapterId, diagnostics.adapterId, checks.defaultAdapter, MAX_NAME_BYTES)
    && (context.diagnostics.truncated <==> !KeptWhole(diagnostics.message))
  }

  /**
   * What is refused: a pack that is not valid, a message whose stored part looks like a credential, an empty
   * code or adapter, more than 64 changes, or changes that are not good.
   */
  ghost predicate Storable(checks: Checks, contextPack: ContextPack, changes: seq<CandidateChange>,
                           diagnostics: Diagnostics)
  {
    && ValidContextPack(checks.screens, contextPack) && |changes| <= MAX_RETRY_CHANGES && GoodChanges(changes)
    && Sayable(checks, diagnostics)
  }

  ghost predicate Sayable(checks: Checks, diagnostics: Diagnostics) {
    && (forall text | Keeps(text, diagnostics.message, [], MAX_DIAGNOSTIC_BYTES) :: !checks.credentialText(text))
    && (forall text | Keeps(text, diagnostics.code, checks.defaultCode, MAX_NAME_BYTES) :: text != [])
    && (forall text | Keeps(text, diagnostics.adapterId, checks.defaultAdapter, MAX_NAME_BYTES) :: text != [])
  }

  /** Refused as an error of the caller rather than for safety, which does not end a session but throws. */
  ghost predicate Misused(checks: Checks, contextPack: ContextPack, changes: seq<CandidateChange>,
                          diagnostics: Diagnostics)
  {
    || !ValidContextPack(checks.screens, contextPack)
    || (Sayable(checks, diagnostics) && |changes| <= MAX_RETRY_CHANGES && exists n: nat :: BreaksOnNothing(changes, n))
  }

  /**
   * buildAdaptiveRetryContext hands the next child what the last one reported: the longest part of its
   * message, code and adapter that fits, and its changes in order; and it refuses nothing but what is not
   * storable.
   */
  lemma BuildsExactly(checks: Checks, contextPack: ContextPack, prior: PriorAttempt, changes: seq<CandidateChange>,
                      diagnostics: Diagnostics)
    ensures var built := Build(checks, contextPack, prior, changes, diagnostics);
            && (built.Ok? <==> Storable(checks, contextPack, changes, diagnostics))
            && (built == Err(UsageError) <==> Misused(checks, contextPack, changes, diagnostics))
            && (built.Err? ==> built.error in {UsageError, SafetyRefusal})
            && (built.Ok? ==> HoldsGiven(checks, contextPack, prior, changes, diagnostics, built.value))
  {
    hide ValidContextPack, ByteLength, CollectChanges, Keeps, GoodChanges, StoresChanges, BreaksOnNothing;
    CollectsExactly(changes);
    CollectErrs(changes);
    FieldIsKept(diagnostics.message, [], MAX_DIAGNOSTIC_BYTES);
    FieldIsKept(diagnostics.code, checks.defaultCode, MAX_NAME_BYTES);
    FieldIsKept(diagnostics.adapterId, checks.defaultAdapter, MAX_NAME_BYTES);
    OneKept(diagnostics.message, [], MAX_DIAGNOSTIC_BYTES);
    OneKept(diagnostics.code, checks.defaultCode, MAX_NAME_BYTES);
    OneKept(diagnostics.adapterId, checks.defaultAdapter, MAX_NAME_BYTES);
    if diagnostics.message.String? {
      BoundedIsFixed(diagnostics.message.text, MAX_DIAGNOSTIC_BYTES);
    }
  }

  lemma OneKept(field: Field, byDefault: Text, maxBytes: nat)
    ensures forall text | Keeps(text, field, byDefault, maxBytes) :: text == Bounded(TextOf(field, byDefault), maxBytes)
  {
    hide ByteLength, Keeps;
    forall text | Keeps(text, field, byDefault, maxBytes)
      ensures text == Bounded(TextOf(field, byDefault), maxBytes)
    {
      FieldIsKept(field, byDefault, maxBytes);
      LongestIsUnique(text, Bounded(TextOf(field, byDefault), maxBytes), field, byDefault, maxBytes);
    }
  }

  /** Everything but the truncation flag is a fixed point of rebuilding; the flag comes back as false. */
  lemma RebuildClearsTruncated(checks: Checks, contextPack: ContextPack, prior: PriorAttempt,
                               changes: seq<CandidateChange>, diagnostics: Diagnostics)
    requires Build(checks, contextPack, prior, changes, diagnostics).Ok?
    ensures var value := Build(checks, contextPack, prior, changes, diagnostics).value;
            Rebuild(checks, value) == Ok(value.(diagnostics := value.diagnostics.(truncated := false)))
  {
    hide ValidContextPack, ByteLength, CollectChanges;
    DefaultsAreShort(checks, diagnostics);
    CollectIsIdempotent(changes);
  }

  /** A context that is bound to the ContextPack it carries, and that no bound cut and no path rewrote. */
  predicate WellMade(checks: Checks, value: RetryContext) {
    && ValidContextPack(checks.screens, value.contextPack) && value.source == value.contextPack.source
    && value.contextPackSha256 == PackSha256(value.contextPack)
    && |value.candidateChanges| <= MAX_RETRY_CHANGES && GoodChanges(value.candidateChanges)
    && StoresChanges(value.candidateChanges, value.candidateChanges)
    && ByteLength(value.diagnostics.message) <= MAX_DIAGNOSTIC_BYTES
    && !checks.credentialText(value.diagnostics.message)
    && value.diagnostics.code != [] && ByteLength(value.diagnostics.code) <= MAX_NAME_BYTES
    && value.diagnostics.adapterId != [] && ByteLength(value.diagnostics.adapterId) <= MAX_NAME_BYTES
    && !value.diagnostics.truncated
  }

  /** validateRetryContext accepts exactly the well made contexts of the session's ContextPack, unchanged. */
  lemma ValidatesExactly(checks: Checks, value: RetryContext, contextPackSha256: PackSha256)
    ensures Validate(checks, value, contextPackSha256).Ok? <==>
              value.contextPackSha256 == contextPackSha256 && WellMade(checks, value)
    ensures Validate(checks, value, contextPackSha256).Ok? ==> Validate(checks, value, contextPackSha256).value == value
  {
    hide ValidContextPack, ByteLength, CollectChanges, GoodChanges, NormalizeRelativePath;
    var said := value.diagnostics;
    CollectsExactly(value.candidateChanges);
    BoundedIsFixed(said.message, MAX_DIAGNOSTIC_BYTES);
    BoundedIsFixed(said.code, MAX_NAME_BYTES);
    BoundedIsFixed(said.adapterId, MAX_NAME_BYTES);
    if StoresChanges(value.candidateChanges, value.candidateChanges) && GoodChanges(value.candidateChanges) {
      StoredOnce(value.candidateChanges, CollectChanges(value.candidateChanges).value);
    }
  }

  lemma StoredOnce(changes: seq<CandidateChange>, stored: seq<CandidateChange>)
    requires StoresChanges(changes, changes) && StoresChanges(changes, stored)
    ensures stored == changes
  {
    hide NormalizeRelativePath;
    forall i | 0 <= i < |changes|
      ensures stored[i] == changes[i]
    {
      assert SameChange(changes[i], changes[i]) && SameChange(changes[i], stored[i]);
    }
  }

  predicate KeptWhole(message: Field) {
    message.Missing? || (message.String? && ByteLength(message.text) <= MAX_DIAGNOSTIC_BYTES)
  }

  /**
   * A retry context is a fixed point of its own validation exactly when nothing was cut from the message:
   * it is absent, or a string of at most 4096 bytes.
   */
  lemma ValidatesUnlessCut(checks: Checks, contextPack: ContextPack, prior: PriorAttempt, changes: seq<CandidateChange>,
                           diagnostics: Diagnostics)
    requires Build(checks, contextPack, prior, changes, diagnostics).Ok?
    ensures var built := Build(checks, contextPack, prior, changes, diagnostics);
            var read := Validate(checks, built.value, PackSha256(contextPack));
            && (read == built <==> read.Ok?)
            && (read.Ok? <==> KeptWhole(diagnostics.message))
  {
    hide ValidContextPack, ByteLength, CollectChanges;
    RebuildClearsTruncated(checks, contextPack, prior, changes, diagnostics);
    if diagnostics.message.String? {
      BoundedIsFixed(diagnostics.message.text, MAX_DIAGNOSTIC_BYTES);
    }
  }

  /** A message of 4097 plain characters is accepted by the builder and refused when it is read back. */
  lemma LongMessageIsUnreadable(checks: Checks, contextPack: ContextPack, prior: PriorAttempt, adapterId: Field,
                                code: Field)
    requires var diagnostics := Diagnostics(adapterId, code, String(seq(4097, i => 0x61)));
             Build(checks, contextPack, prior, [], diagnostics).Ok?
    ensures var diagnostics := Diagnostics(adapterId, code, String(seq(4097, i => 0x61)));
            var built := Build(checks, contextPack, prior, [], diagnostics).value;
            Validate(checks, built, PackSha256(contextPack)) == Err(SafetyRefusal)
  {
    hide ValidContextPack;
    var text := seq(4097, i => 0x61 as Unit);
    PlainLength(text);
    var diagnostics := Diagnostics(adapterId, code, String(text));
    RebuildClearsTruncated(checks, contextPack, prior, [], diagnostics);
    BoundedIsFixed(text, MAX_DIAGNOSTIC_BYTES);
  }

  lemma {:induction false} PlainLength(text: Text)
    requires forall i :: 0 <= i < |text| ==> text[i] == 0x61
    ensures ByteLength(text) == |text|
  {
    if text != [] {
      PlainLength(text[1..]);
    }
  }
}
