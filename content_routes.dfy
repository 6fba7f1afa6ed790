/**
 * The notice and event routers: which stages each route runs (the request gate, the
 * upload middleware with its file cap, the field validators), and the validator rules.
 * Missing text fields are the empty string; a date is `None` when its text is not an
 * ISO 8601 date.
 */
module ContentRoutes {
  import opened Wrappers
  import opened Strings
  import opened Content

  datatype Resource = Notices | Events
  datatype Verb = Get | Post | Put | Delete

  /** The stages a route runs before its controller. */
  datatype Stage = Gate | Upload(cap: nat) | Validate

  /** The route table of both routers; `GET /` and `GET /:id` are public. */
  function Pipeline(r: Resource, v: Verb): seq<Stage> {
    match v
    case Get => []
    case Delete => [Gate]
    case Post => [Gate, Upload(2), Validate]
    case Put => [Gate, Upload(if r == Notices then 5 else 2), Validate]
  }

  /** The file cap of a route, 0 where the route takes no uploads. */
  function UploadCap(r: Resource, v: Verb): nat {
    if v == Post then 2 else if v == Put && r == Notices then 5 else if v == Put then 2 else 0
  }

  /** Reading is public, every change needs the gate; only creation and update take files, and only they are validated. */
  lemma RouteTable(r: Resource, v: Verb)
    ensures var p := Pipeline(r, v);
      (Gate in p <==> v != Get) && (p != [] ==> p[0] == Gate) &&
      (Validate in p <==> v == Post || v == Put) &&
      ((exists k :: 0 <= k < |p| && p[k] == Upload(UploadCap(r, v))) <==> v == Post || v == Put)
    ensures UploadCap(Notices, Post) == 2 && UploadCap(Notices, Put) == 5
    ensures UploadCap(Events, Post) == 2 && UploadCap(Events, Put) == 2
  {
    var p := Pipeline(r, v);
    if v == Post || v == Put {
      assert p[1] == Upload(UploadCap(r, v));
    }
  }

  datatype NoticeForm = NoticeForm(title: string, content: string, noticeType: Option<string>, department: string)

  /** The validator chain of notice creation and update, in declaration order. */
  function NoticeErrors(f: NoticeForm): (errors: seq<string>)
    ensures errors == [] <==>
      f.title != [] && f.content != [] && f.noticeType.Some? && f.noticeType.value in NoticeTypes && f.department != []
  {
    (if f.title == [] then ["Title is required"] else []) +
    (if f.content == [] then ["Content is required"] else []) +
    (if f.noticeType.None? || f.noticeType.value !in NoticeTypes then ["Invalid notice type"] else []) +
    (if f.department == [] then ["Department is required"] else [])
  }

  datatype EventForm = EventForm(
    title: string, description: string, date: Option<int>, startTime: string, endTime: string,
    location: string, department: string, eventType: Option<string>)

  /** The validator chain of event creation and update, in declaration order. */
  function EventErrors(f: EventForm): (errors: seq<string>)
    ensures errors == [] <==>
      f.title != [] && f.description != [] && f.date.Some? && IsClockTime(f.startTime) && IsClockTime(f.endTime) &&
      f.location != [] && f.department != [] && f.eventType.Some? && f.eventType.value in EventTypes
  {
    (if f.title == [] then ["Title is required"] else []) +
    (if f.description == [] then ["Description is required"] else []) +
    (if f.date.None? then ["Invalid date format"] else []) +
    (if !IsClockTime(f.startTime) then ["Valid start time is required"] else []) +
    (if !IsClockTime(f.endTime) then ["Valid end time is required"] else []) +
    (if f.location == [] then ["Location is required"] else []) +
    (if f.department == [] then ["Department is required"] else []) +
    (if f.eventType.None? || f.eventType.value !in EventTypes then ["Invalid event type"] else [])
  }

  predicate IsDigit(c: char) {
    '0' <= c <= '9'
  }

  /** The two-character hours of `[0-1]?[0-9]|2[0-3]`: 00 to 19, or 20 to 23. */
  predicate TwoDigitHour(a: char, b: char) {
    ((a == '0' || a == '1') && IsDigit(b)) || (a == '2' && '0' <= b <= '3')
  }

  /** `^([0-1]?[0-9]|2[0-3]):[0-5][0-9]$`: one or two hour digits, a colon, two minute digits. */
  predicate IsClockTime(s: string) {
    (|s| == 4 && IsDigit(s[0]) && s[1] == ':' && '0' <= s[2] <= '5' && IsDigit(s[3])) ||
    (|s| == 5 && TwoDigitHour(s[0], s[1]) && s[2] == ':' && '0' <= s[3] <= '5' && IsDigit(s[4]))
  }

  function DigitValue(c: char): int {
    c as int - '0' as int
  }

  /** The hours and minutes an accepted time names. */
  function ClockValue(s: string): (hm: (int, int))
    requires IsClockTime(s)
    ensures 0 <= hm.0 < 24 && 0 <= hm.1 < 60
  {
    if |s| == 4 then (DigitValue(s[0]), 10 * DigitValue(s[2]) + DigitValue(s[3]))
    else (10 * DigitValue(s[0]) + DigitValue(s[1]), 10 * DigitValue(s[3]) + DigitValue(s[4]))
  }

  /** A time written with two-digit hours and minutes. */
  function Clock(h: nat, m: nat): string
    requires h < 24 && m < 60
  {
    [DigitChar(h / 10), DigitChar(h % 10), ':', DigitChar(m / 10), DigitChar(m % 10)]
  }

  /** Every time of day is accepted in its two-digit form and reads back as itself. */
  lemma ClockAccepted(h: nat, m: nat)
    requires h < 24 && m < 60
    ensures IsClockTime(Clock(h, m)) && ClockValue(Clock(h, m)) == (h, m)
  {
    var s := Clock(h, m);
    assert DigitValue(s[0]) == h / 10 && DigitValue(s[1]) == h % 10;
    assert DigitValue(s[3]) == m / 10 && DigitValue(s[4]) == m % 10;
  }

  /** The hour may also be written with one digit. */
  lemma ShortHourAccepted(h: nat, m: nat)
    requires h < 10 && m < 60
    ensures var s := [DigitChar(h), ':', DigitChar(m / 10), DigitChar(m % 10)];
      IsClockTime(s) && ClockValue(s) == (h, m)
  {
    var s := [DigitChar(h), ':', DigitChar(m / 10), DigitChar(m % 10)];
    assert DigitValue(s[0]) == h && DigitValue(s[2]) == m / 10 && DigitValue(s[3]) == m % 10;
  }

  lemma ClockExamples()
    ensures IsClockTime("9:05") && IsClockTime("23:59") && IsClockTime("09:05") && IsClockTime("00:00")
    ensures !IsClockTime("24:00") && !IsClockTime("12:60") && !IsClockTime("9:5") && !IsClockTime("123:00")
  {
  }
}
