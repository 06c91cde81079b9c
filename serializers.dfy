/**
 * The request validators of the room REST endpoints: the game-start request
 * (its field bounds and the cross-field `validate`), the join nickname, and
 * the QR-code link of a room.
 *
 * A DRF `CharField` with default options strips surrounding whitespace, refuses
 * a blank value and refuses the NUL character; an `IntegerField` with bounds
 * refuses values outside them. The field checks all run, in declaration order,
 * before `validate`, and `validate` runs only when no field failed.
 */
module Serializers {
  import opened Wrappers

  // ---------------------------------------------------------------- whitespace

  /** The characters Python's `str.isspace` accepts. */
  predicate IsSpace(c: char): (space: bool)
    ensures c in " \t\n\r\U{B}\U{C}" ==> space
    ensures ('0' <= c <= '9') || ('a' <= c <= 'z') || ('A' <= c <= 'Z') || c == '_' ==> !space
  {
    || ('\t' <= c <= '\r') || ('\U{1C}' <= c <= ' ')
    || c == '\U{85}' || c == '\U{A0}' || c == '\U{1680}'
    || ('\U{2000}' <= c <= '\U{200A}') || c == '\U{2028}' || c == '\U{2029}'
    || c == '\U{202F}' || c == '\U{205F}' || c == '\U{3000}'
  }

  function TrimStart(s: string): (r: string)
    ensures |r| <= |s| && r == s[|s| - |r|..]
    ensures r == [] || !IsSpace(r[0])
    ensures forall i :: 0 <= i < |s| - |r| ==> IsSpace(s[i])
  {
    if s != [] && IsSpace(s[0]) then TrimStart(s[1..]) else s
  }

  function TrimEnd(s: string): (r: string)
    ensures |r| <= |s| && r == s[..|r|]
    ensures r == [] || !IsSpace(r[|r| - 1])
    ensures forall i :: |r| <= i < |s| ==> IsSpace(s[i])
  {
    if s != [] && IsSpace(s[|s| - 1]) then TrimEnd(s[..|s| - 1]) else s
  }

  /** `str.strip()`: the value a `CharField` keeps. */
  function Trim(s: string): (r: string)
    ensures r == [] || (!IsSpace(r[0]) && !IsSpace(r[|r| - 1]))
  {
    TrimEnd(TrimStart(s))
  }

  /** Stripping twice is stripping once. */
  lemma TrimIdempotent(s: string)
    ensures Trim(Trim(s)) == Trim(s)
  {
    var t := Trim(s);
    if t != [] {
      assert TrimStart(t) == t;
      assert TrimEnd(t) == t;
    }
  }

  /** Stripping removes only whitespace, and only from the two ends. */
  lemma {:induction false} TrimIsInfix(s: string)
    ensures exists a, b ::
      && 0 <= a <= b <= |s|
      && Trim(s) == s[a..b]
      && (forall i :: 0 <= i < a ==> IsSpace(s[i]))
      && (forall i :: b <= i < |s| ==> IsSpace(s[i]))
  {
    var u := TrimStart(s);
    var a := |s| - |u|;
    var b := a + |Trim(s)|;
    assert Trim(s) == s[a..b] by {
      assert u == s[a..];
      assert Trim(s) == u[..|Trim(s)|];
    }
    forall i | b <= i < |s| ensures IsSpace(s[i]) {
      assert s[i] == u[i - a];
    }
  }

  /** A `CharField()` with default options: the stripped value, or nothing when it is refused. */
  function CleanChar(raw: string): (r: Option<string>)
    ensures r.Some? ==> r.value == Trim(raw) && r.value != [] && '\0' !in r.value
    ensures r.None? ==> Trim(raw) == [] || '\0' in Trim(raw)
  {
    var v := Trim(raw);
    if v == [] || '\0' in v then None else Some(v)
  }

  // ---------------------------------------------------------------- the join nickname

  const NicknameMinLength: nat := 2
  const NicknameMaxLength: nat := 10

  /** `JoinRoomSerializer.nickname`: a `CharField` of 2 to 10 characters after stripping. */
  function CleanNickname(raw: string): (r: Option<string>)
    ensures r.Some? <==> CleanChar(raw).Some? && NicknameMinLength <= |Trim(raw)| <= NicknameMaxLength
    ensures r.Some? ==> r.value == Trim(raw) && 2 <= |r.value| <= 10
  {
    var v := CleanChar(raw);
    if v.Some? && NicknameMinLength <= |v.value| <= NicknameMaxLength then v else None
  }

  /** An accepted nickname is accepted again unchanged. */
  lemma NicknameStable(raw: string)
    requires CleanNickname(raw).Some?
    ensures CleanNickname(CleanNickname(raw).value) == CleanNickname(raw)
  {
    TrimIdempotent(raw);
  }

  // ---------------------------------------------------------------- the game-start request

  const BpmLowerBound: int := 50
  const BpmUpperBound: int := 200
  const MinTimeLimitSeconds: int := 1
  const BpmOrderMessage: string := "bpm_min must be less than bpm_max"

  /** The fields of a game-start request. */
  datatype GameStartData = GameStartData(playerId: string, mode: string, timeLimitSeconds: int, bpmMin: int, bpmMax: int)

  /** The declared fields of `GameStartSerializer`. */
  datatype Field = PlayerIdField | ModeField | TimeLimitField | BpmMinField | BpmMaxField

  /** A refused request: the failing fields, or the error `validate` raises. */
  datatype Rejection = FieldErrors(fields: set<Field>) | NonFieldError(message: string)

  /** An `IntegerField` with `min_value` and `max_value`. */
  predicate InRange(v: int, lo: int, hi: int) {
    lo <= v <= hi
  }

  const AllFields: set<Field> := {PlayerIdField, ModeField, TimeLimitField, BpmMinField, BpmMaxField}

  /** Whether field `f` of `d` fails its own check; `modes` is the choice set of `Room.Mode`. */
  predicate FieldFails(d: GameStartData, modes: set<string>, f: Field) {
    match f
    case PlayerIdField => CleanChar(d.playerId).None?
    case ModeField => d.mode !in modes
    case TimeLimitField => d.timeLimitSeconds < MinTimeLimitSeconds
    case BpmMinField => !InRange(d.bpmMin, BpmLowerBound, BpmUpperBound)
    case BpmMaxField => !InRange(d.bpmMax, BpmLowerBound, BpmUpperBound)
  }

  /** The fields that fail their own checks. */
  function FailingFields(d: GameStartData, modes: set<string>): (bad: set<Field>)
    ensures PlayerIdField in bad <==> CleanChar(d.playerId).None?
    ensures ModeField in bad <==> d.mode !in modes
    ensures TimeLimitField in bad <==> d.timeLimitSeconds < MinTimeLimitSeconds
    ensures BpmMinField in bad <==> !InRange(d.bpmMin, BpmLowerBound, BpmUpperBound)
    ensures BpmMaxField in bad <==> !InRange(d.bpmMax, BpmLowerBound, BpmUpperBound)
  {
    set f | f in AllFields && FieldFails(d, modes, f)
  }

  /** `GameStartSerializer.validate`: refuses an empty or inverted bpm range, else passes the data through. */
  function Validate(d: GameStartData): (r: Result<GameStartData, Rejection>)
    ensures r.Failure? <==> d.bpmMin >= d.bpmMax
    ensures r.Success? ==> r.value == d
    ensures r.Failure? ==> r.error == NonFieldError(BpmOrderMessage)
  {
    if d.bpmMin >= d.bpmMax then Failure(NonFieldError(BpmOrderMessage)) else Success(d)
  }

  /** `is_valid()` of a game-start request: the field checks, then `validate` on the cleaned data. */
  function CleanGameStart(raw: GameStartData, modes: set<string>): (r: Result<GameStartData, Rejection>)
    ensures r.Success? ==>
      && r.value.playerId == Trim(raw.playerId) && r.value.playerId != []
      && r.value.mode == raw.mode && r.value.mode in modes
      && r.value.timeLimitSeconds == raw.timeLimitSeconds >= MinTimeLimitSeconds
      && BpmLowerBound <= r.value.bpmMin == raw.bpmMin < r.value.bpmMax == raw.bpmMax <= BpmUpperBound
    ensures r.Failure? ==> r.error == NonFieldError(BpmOrderMessage) || r.error == FieldErrors(FailingFields(raw, modes))
  {
    var bad := FailingFields(raw, modes);
    if bad != {} then Failure(FieldErrors(bad))
    else
      assert PlayerIdField !in bad && ModeField !in bad && TimeLimitField !in bad;
      assert BpmMinField !in bad && BpmMaxField !in bad;
      Validate(raw.(playerId := Trim(raw.playerId)))
  }

  /**
   * A request is accepted exactly when every field is within its bounds and
   * 50 <= bpm_min < bpm_max <= 200; the accepted data is the request with a
   * stripped player id.
   */
  lemma GameStartAccepted(raw: GameStartData, modes: set<string>)
    ensures CleanGameStart(raw, modes).Success? <==>
      && CleanChar(raw.playerId).Some?
      && raw.mode in modes
      && raw.timeLimitSeconds >= 1
      && BpmLowerBound <= raw.bpmMin < raw.bpmMax <= BpmUpperBound
    ensures CleanGameStart(raw, modes).Success? ==>
      CleanGameStart(raw, modes).value == raw.(playerId := Trim(raw.playerId))
  {
    var bad := FailingFields(raw, modes);
    if bad == {} {
      assert PlayerIdField !in bad && BpmMinField !in bad && BpmMaxField !in bad;
    } else {
      var f :| f in bad;
    }
  }

  /**
   * A request with a failing field is refused with exactly the failing fields,
   * whatever its bpm range; the range error is reported only when every field passed.
   */
  lemma FieldErrorsComeFirst(raw: GameStartData, modes: set<string>)
    ensures FailingFields(raw, modes) != {} ==>
      CleanGameStart(raw, modes) == Failure(FieldErrors(FailingFields(raw, modes)))
    ensures CleanGameStart(raw, modes) == Failure(NonFieldError(BpmOrderMessage)) <==>
      FailingFields(raw, modes) == {} && raw.bpmMin >= raw.bpmMax
  {
  }

  // ---------------------------------------------------------------- the QR-code link

  const QrPrefix: string := "https://api.qrserver.com/v1/create-qr-code/?data="

  /** `get_qr_code_url`: the QR service's address with the room code as its `data` parameter. */
  function QrCodeUrl(roomCode: string): (url: string)
    ensures |url| == |QrPrefix| + |roomCode|
    ensures url[..|QrPrefix|] == QrPrefix && url[|QrPrefix|..] == roomCode
  {
    QrPrefix + roomCode
  }

  /** The room code a QR link carries, or nothing when the text is not such a link. */
  function RoomCodeOf(url: string): (code: Option<string>)
    ensures code.Some? <==> |url| >= |QrPrefix| && url[..|QrPrefix|] == QrPrefix
  {
    if |url| >= |QrPrefix| && url[..|QrPrefix|] == QrPrefix then Some(url[|QrPrefix|..]) else None
  }

  /** Reading the code back from a link gives the code the link was made from. */
  lemma QrCodeRoundTrip(roomCode: string)
    ensures RoomCodeOf(QrCodeUrl(roomCode)) == Some(roomCode)
  {
  }

  /** Every link that carries a code is the link of that code. */
  lemma QrCodeOnlyLinks(url: string)
    requires RoomCodeOf(url).Some?
    ensures QrCodeUrl(RoomCodeOf(url).value) == url
  {
    assert url == url[..|QrPrefix|] + url[|QrPrefix|..];
  }

  /** Distinct rooms get distinct links. */
  lemma QrCodeInjective(a: string, b: string)
    requires QrCodeUrl(a) == QrCodeUrl(b)
    ensures a == b
  {
    QrCodeRoundTrip(a);
    QrCodeRoundTrip(b);
  }
}
