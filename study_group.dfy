/** The helpers of the study-group details view
    (frontend/src/Components/StudyGroupModal.js): the Google Calendar link
    for a meeting on the next day at 15:00, the mock member e-mails and
    their `mailto:` list, and the friend badge. */
module StudyGroup {
  import opened Text

  // ---------------------------------------------------------------------
  // Local calendar dates

  /** The local fields of a JavaScript `Date`, with `month` counted from 0
      as `getMonth` does. */
  datatype DateTime = DateTime(year: int, month: int, day: int,
                               hours: int, minutes: int, seconds: int, millis: int)

  predicate IsLeapYear(y: int)
  {
    y % 4 == 0 && (y % 100 != 0 || y % 400 == 0)
  }

  /** The length of month `m` (0 = January) of the proleptic Gregorian year `y`. */
  function DaysInMonth(y: int, m: int): (n: int)
    requires 0 <= m < 12
    ensures 28 <= n <= 31
  {
    if m == 1 then (if IsLeapYear(y) then 29 else 28)
    else if m == 3 || m == 5 || m == 8 || m == 10 then 30
    else 31
  }

  predicate ValidDateTime(d: DateTime)
  {
    && 0 <= d.month < 12 && 1 <= d.day <= DaysInMonth(d.year, d.month)
    && 0 <= d.hours < 24 && 0 <= d.minutes < 60 && 0 <= d.seconds < 60 && 0 <= d.millis < 1000
  }

  /** `setDate(getDate() + 1)`: the next calendar day, rolling over into the
      next month and year; the clock fields are kept. */
  function Tomorrow(d: DateTime): (r: DateTime)
    requires ValidDateTime(d)
    ensures ValidDateTime(r)
    ensures r.hours == d.hours && r.minutes == d.minutes && r.seconds == d.seconds && r.millis == d.millis
  {
    if d.day < DaysInMonth(d.year, d.month) then d.(day := d.day + 1)
    else if d.month < 11 then d.(month := d.month + 1, day := 1)
    else d.(year := d.year + 1, month := 0, day := 1)
  }

  function DaysInYear(y: int): int
  {
    if IsLeapYear(y) then 366 else 365
  }

  /** Days from 1 January of year 0 to 1 January of year `y`. */
  function DaysBeforeYear(y: int): int
    decreases if y >= 0 then y else -y
  {
    if y == 0 then 0
    else if y > 0 then DaysBeforeYear(y - 1) + DaysInYear(y - 1)
    else DaysBeforeYear(y + 1) - DaysInYear(y)
  }

  /** Days from 1 January to the first of month `m` of year `y`. */
  function DaysBeforeMonth(y: int, m: int): int
    requires 0 <= m < 12
  {
    if m == 0 then 0 else DaysBeforeMonth(y, m - 1) + DaysInMonth(y, m - 1)
  }

  /** A day's position on a continuous count of days. */
  function DayNumber(d: DateTime): int
    requires 0 <= d.month < 12
  {
    DaysBeforeYear(d.year) + DaysBeforeMonth(d.year, d.month) + d.day - 1
  }

  /** The instant in milliseconds on the local timeline. */
  function Instant(d: DateTime): int
    requires 0 <= d.month < 12
  {
    DayNumber(d) * 86400000 + d.hours * 3600000 + d.minutes * 60000 + d.seconds * 1000 + d.millis
  }

  lemma YearEnd(y: int)
    ensures DaysBeforeMonth(y, 11) + DaysInMonth(y, 11) == DaysInYear(y)
    ensures DaysBeforeYear(y + 1) == DaysBeforeYear(y) + DaysInYear(y)
  {
    var feb := DaysInMonth(y, 1);
    assert DaysBeforeMonth(y, 1) == 31;
    assert DaysBeforeMonth(y, 2) == 31 + feb;
    assert DaysBeforeMonth(y, 3) == 62 + feb;
    assert DaysBeforeMonth(y, 4) == 92 + feb;
    assert DaysBeforeMonth(y, 5) == 123 + feb;
    assert DaysBeforeMonth(y, 6) == 153 + feb;
    assert DaysBeforeMonth(y, 7) == 184 + feb;
    assert DaysBeforeMonth(y, 8) == 215 + feb;
    assert DaysBeforeMonth(y, 9) == 245 + feb;
    assert DaysBeforeMonth(y, 10) == 276 + feb;
    assert DaysBeforeMonth(y, 11) == 306 + feb;
  }

  /** `Tomorrow` is exactly one day later on the continuous day count. */
  lemma TomorrowIsNextDay(d: DateTime)
    requires ValidDateTime(d)
    ensures DayNumber(Tomorrow(d)) == DayNumber(d) + 1
  {
    if d.day == DaysInMonth(d.year, d.month) && d.month == 11 {
      YearEnd(d.year);
    }
  }

  /** A JavaScript `Date` object, mutated in place by its setters. */
  class Date {
    var year: int
    var month: int
    var day: int
    var hours: int
    var minutes: int
    var seconds: int
    var millis: int

    function Fields(): DateTime
      reads this
    {
      DateTime(year, month, day, hours, minutes, seconds, millis)
    }

    /** `new Date(d)`: a separate object with the same fields (the clock
        reading behind `new Date()` is passed in the same way). */
    constructor(d: DateTime)
      ensures Fields() == d
    {
      year, month, day := d.year, d.month, d.day;
      hours, minutes, seconds, millis := d.hours, d.minutes, d.seconds, d.millis;
    }

    /** `setDate(getDate() + 1)`. */
    method AdvanceDay()
      requires ValidDateTime(Fields())
      modifies this
      ensures Fields() == Tomorrow(old(Fields()))
    {
      var next := Tomorrow(Fields());
      year, month, day := next.year, next.month, next.day;
    }

    /** `setHours(h, m, s, ms)` for in-range arguments. */
    method SetHours(h: int, m: int, s: int, ms: int)
      requires 0 <= h < 24 && 0 <= m < 60 && 0 <= s < 60 && 0 <= ms < 1000
      modifies this
      ensures Fields() == old(Fields()).(hours := h, minutes := m, seconds := s, millis := ms)
    {
      hours, minutes, seconds, millis := h, m, s, ms;
    }
  }

  // ---------------------------------------------------------------------
  // The calendar link

  /** `pad(num)`: a leading '0' below 10. */
  function Pad(n: int): (r: string)
    ensures 0 <= n < 10 ==> r == ['0', DigitChar(n)]
    ensures n >= 10 ==> r == NatToString(n)
    ensures 0 <= n < 100 ==> |r| == 2 && IsDigit(r[0]) && IsDigit(r[1])
  {
    NatToStringLength(if n < 0 then -n else n);
    if n < 10 then "0" + IntToString(n) else IntToString(n)
  }

  predicate AllDigits(s: string)
  {
    forall i :: 0 <= i < |s| ==> IsDigit(s[i])
  }

  /** `pad` renders two digits that read back as the number. */
  lemma {:induction false} PadReadsBack(n: int)
    requires 0 <= n < 100
    ensures |Pad(n)| == 2 && AllDigits(Pad(n)) && DigitsValue(Pad(n)) == n
  {
    DigitsRoundTrip(n);
    var s := Pad(n);
    if n < 10 {
      assert s[..1] == "0";
      assert DigitsValue(s[..1]) == 0 by {
        assert s[..1][..0] == [];
      }
    }
  }

  /** A four-digit year renders as four digits that read back as it. */
  lemma YearReadsBack(y: int)
    requires 1000 <= y <= 9999
    ensures |IntToString(y)| == 4 && AllDigits(IntToString(y)) && DigitsValue(IntToString(y)) == y
  {
    NatToStringLength(y);
    DigitsRoundTrip(y);
  }

  /** `formatDateForGCal(date)`: `YYYYMMDDTHHMM00`. */
  function FormatGCal(d: DateTime): string
  {
    IntToString(d.year) + Pad(d.month + 1) + Pad(d.day) + "T" + Pad(d.hours) + Pad(d.minutes) + "00"
  }

  /** Where the pieces of `YYYYMMDDTHHMM00` sit, and the values they read
      back as. */
  lemma FormatLayout(y: string, mo: string, dd: string, hh: string, mi: string)
    requires |y| == 4 && |mo| == 2 && |dd| == 2 && |hh| == 2 && |mi| == 2
    requires AllDigits(y) && AllDigits(mo) && AllDigits(dd) && AllDigits(hh) && AllDigits(mi)
    ensures var s := y + mo + dd + "T" + hh + mi + "00";
      && |s| == 15 && s[8] == 'T' && s[13..] == "00"
      && s[..4] == y && s[4..6] == mo && s[6..8] == dd && s[9..11] == hh && s[11..13] == mi
      && AllDigits(s[..8]) && AllDigits(s[9..])
      && DigitsValue(s[..4]) == DigitsValue(y) && DigitsValue(s[4..6]) == DigitsValue(mo)
      && DigitsValue(s[6..8]) == DigitsValue(dd) && DigitsValue(s[9..11]) == DigitsValue(hh)
      && DigitsValue(s[11..13]) == DigitsValue(mi)
  {
    var s := y + mo + dd + "T" + hh + mi + "00";
    assert s[..8] == y + mo + dd;
    assert s[9..] == hh + mi + "00";
  }

  /** For a four-digit year the text has fixed positions from which every
      field reads back. */
  lemma FormatGCalReadsBack(d: DateTime)
    requires 1000 <= d.year <= 9999 && 0 <= d.month < 12 && 1 <= d.day <= 31
    requires 0 <= d.hours < 24 && 0 <= d.minutes < 60
    ensures var s := FormatGCal(d);
      && |s| == 15 && s[8] == 'T' && s[13..] == "00"
      && AllDigits(s[..8]) && AllDigits(s[9..])
      && DigitsValue(s[..4]) == d.year
      && DigitsValue(s[4..6]) == d.month + 1
      && DigitsValue(s[6..8]) == d.day
      && DigitsValue(s[9..11]) == d.hours
      && DigitsValue(s[11..13]) == d.minutes
  {
    var y, mo, dd, hh, mi := IntToString(d.year), Pad(d.month + 1), Pad(d.day), Pad(d.hours), Pad(d.minutes);
    YearReadsBack(d.year);
    PadReadsBack(d.month + 1);
    PadReadsBack(d.day);
    PadReadsBack(d.hours);
    PadReadsBack(d.minutes);
    FormatLayout(y, mo, dd, hh, mi);
  }

  /** The meeting `handleCreateEvent` proposes: the day after `now`, 15:00
      to 16:00. */
  function MeetingStart(now: DateTime): (r: DateTime)
    requires ValidDateTime(now)
    ensures ValidDateTime(r)
  {
    Tomorrow(now).(hours := 15, minutes := 0, seconds := 0, millis := 0)
  }

  function MeetingEnd(now: DateTime): (r: DateTime)
    requires ValidDateTime(now)
    ensures ValidDateTime(r)
  {
    MeetingStart(now).(hours := 16)
  }

  /** The meeting lies on the next calendar day, after `now`, and lasts one
      hour. */
  lemma MeetingWindow(now: DateTime)
    requires ValidDateTime(now)
    ensures DayNumber(MeetingStart(now)) == DayNumber(now) + 1
    ensures Instant(now) < Instant(MeetingStart(now))
    ensures Instant(MeetingEnd(now)) - Instant(MeetingStart(now)) == 3600000
  {
    TomorrowIsNextDay(now);
  }

  const CalendarHost := "https://calendar.google.com"
  const CalendarPath := "/calendar/render?action=TEMPLATE"
  const CalendarBase := CalendarHost + CalendarPath

  /** The Google Calendar template link, from already encoded texts: the
      base, then the `text`, `dates` and `details` parameters, each after
      an '&'. */
  function CalendarUrl(title: string, start: string, end: string, details: string): string
  {
    Join([CalendarBase, "text=" + title, "dates=" + start + "/" + end, "details=" + details], '&')
  }

  lemma NoAmpersandInBase()
    ensures '&' !in CalendarBase
  {
    assert forall i :: 0 <= i < |CalendarHost| ==> CalendarHost[i] != '&';
    assert forall i :: 0 <= i < |CalendarPath| ==> CalendarPath[i] != '&';
    assert forall i :: 0 <= i < |CalendarBase| ==> CalendarBase[i] != '&' by {
      forall i | 0 <= i < |CalendarBase| ensures CalendarBase[i] != '&' {
        if i < |CalendarHost| {
          assert CalendarBase[i] == CalendarHost[i];
        } else {
          assert CalendarBase[i] == CalendarPath[i - |CalendarHost|];
        }
      }
    }
  }

  lemma NoSeparatorInConcat(a: string, b: string, sep: char)
    requires sep !in a && sep !in b
    ensures sep !in a + b
  {
    assert forall i :: 0 <= i < |a + b| ==> (a + b)[i] == if i < |a| then a[i] else b[i - |a|];
  }

  /** With encoded texts free of '&', the link splits back into its base
      and its three parameters. */
  lemma CalendarUrlFields(title: string, start: string, end: string, details: string)
    requires '&' !in title && '&' !in start && '&' !in end && '&' !in details
    ensures Split(CalendarUrl(title, start, end, details), '&') ==
      [CalendarBase, "text=" + title, "dates=" + start + "/" + end, "details=" + details]
  {
    var parts := [CalendarBase, "text=" + title, "dates=" + start + "/" + end, "details=" + details];
    NoAmpersandInBase();
    NoSeparatorInConcat("text=", title, '&');
    NoSeparatorInConcat("dates=", start, '&');
    NoSeparatorInConcat("dates=" + start, "/", '&');
    NoSeparatorInConcat("dates=" + start + "/", end, '&');
    NoSeparatorInConcat("details=", details, '&');
    SplitJoin(parts, '&');
  }

  /** `handleCreateEvent`: the link it opens; `encode` stands for
      `encodeURIComponent` and `now` for the clock reading. */
  method CreateEvent(groupName: string, now: DateTime, encode: string -> string) returns (url: string)
    requires ValidDateTime(now)
    ensures url == CalendarUrl(encode(groupName + " Meeting"), FormatGCal(MeetingStart(now)),
                               FormatGCal(MeetingEnd(now)), encode("Meeting for " + groupName))
  {
    var title := encode(groupName + " Meeting");
    var description := encode("Meeting for " + groupName);
    var clock := new Date(now);
    var meetingDate := new Date(clock.Fields());
    meetingDate.AdvanceDay();
    meetingDate.SetHours(15, 0, 0, 0);
    var endDate := new Date(meetingDate.Fields());
    endDate.SetHours(16, 0, 0, 0);
    var startDateFormatted := FormatGCal(meetingDate.Fields());
    var endDateFormatted := FormatGCal(endDate.Fields());
    url := CalendarUrl(title, startDateFormatted, endDateFormatted, description);
  }

  // ---------------------------------------------------------------------
  // Mock e-mails

  /** `s.replace(/\s+/g, '.')`: each run of white space becomes one '.'. */
  function CollapseSpaces(s: string): (r: string)
    ensures |r| <= |s|
    ensures forall i :: 0 <= i < |r| ==> !IsSpace(r[i])
    decreases |s|
  {
    if s == [] then []
    else if IsSpace(s[0]) then ['.'] + CollapseSpaces(TrimStart(s[1..]))
    else [s[0]] + CollapseSpaces(s[1..])
  }

  /** Text without white space is left alone, so collapsing twice is
      collapsing once. */
  lemma {:induction false} CollapseKeepsSpaceless(s: string)
    requires forall i :: 0 <= i < |s| ==> !IsSpace(s[i])
    ensures CollapseSpaces(s) == s
  {
    if s != [] {
      CollapseKeepsSpaceless(s[1..]);
      assert [s[0]] + s[1..] == s;
    }
  }

  lemma CollapseIdempotent(s: string)
    ensures CollapseSpaces(CollapseSpaces(s)) == CollapseSpaces(s)
  {
    CollapseKeepsSpaceless(CollapseSpaces(s));
  }

  predicate Spaceless(s: string)
  {
    forall i :: 0 <= i < |s| ==> !IsSpace(s[i])
  }

  /** `trimStart` removes a blank prefix up to a character that is not
      white space. */
  lemma {:induction false} TrimStartBlankPrefix(b: string, v: string)
    requires IsBlank(b)
    requires v == [] || !IsSpace(v[0])
    ensures TrimStart(b + v) == v
    decreases |b|
  {
    if b != [] {
      assert (b + v)[1..] == b[1..] + v;
      TrimStartBlankPrefix(b[1..], v);
    }
  }

  /** A word, then a white-space run, then text that does not start with
      white space: the run becomes exactly one '.' and the word is kept. */
  lemma {:induction false} CollapseRun(u: string, r: string, v: string)
    requires Spaceless(u)
    requires r != [] && IsBlank(r)
    requires v == [] || !IsSpace(v[0])
    ensures CollapseSpaces(u + r + v) == u + "." + CollapseSpaces(v)
    decreases |u|
  {
    var s := u + r + v;
    if u == [] {
      assert s == r + v && IsSpace(s[0]);
      assert s[1..] == r[1..] + v;
      TrimStartBlankPrefix(r[1..], v);
    } else {
      assert s[0] == u[0] && s[1..] == u[1..] + r + v;
      CollapseRun(u[1..], r, v);
      assert [u[0]] + u[1..] == u;
    }
  }

  /** Words separated by white-space runs: `words[0] + runs[0] + words[1] + …`. */
  function Interleave(words: seq<string>, runs: seq<string>): (s: string)
    requires |words| >= 1 && |runs| == |words| - 1
  {
    if |words| == 1 then words[0]
    else words[0] + runs[0] + Interleave(words[1..], runs[1..])
  }

  /** The shape of any text: words without white space, all but possibly
      the first and the last non-empty, separated by non-empty white-space
      runs. */
  predicate WordsAndRuns(words: seq<string>, runs: seq<string>)
  {
    && |words| >= 1 && |runs| == |words| - 1
    && (forall k :: 0 <= k < |words| ==> Spaceless(words[k]))
    && (forall k :: 0 < k < |words| - 1 ==> words[k] != [])
    && (forall k :: 0 <= k < |runs| ==> runs[k] != [] && IsBlank(runs[k]))
  }

  /** Every text can be written as words and runs, so `CollapseWords`
      covers every input. The first word is non-empty when the text starts
      with a character that is not white space. */
  lemma {:induction false} WordsAndRunsOf(s: string) returns (words: seq<string>, runs: seq<string>)
    ensures WordsAndRuns(words, runs) && Interleave(words, runs) == s
    ensures s != [] && !IsSpace(s[0]) ==> words[0] != []
    decreases |s|
  {
    if s == [] {
      words, runs := [[]], [];
    } else if IsSpace(s[0]) {
      var v := TrimStart(s);
      TrimStartShape(s);
      assert TrimStart(s) == TrimStart(s[1..]);
      var r := s[..|s| - |v|];
      assert s == r + v;
      var w', r' := WordsAndRunsOf(v);
      words, runs := [[]] + w', [r] + r';
      assert words[1..] == w' && runs[1..] == r';
      assert Spaceless(words[0]);
      forall k | 0 < k < |words| - 1 ensures words[k] != [] {
        if k == 1 {
          assert v != [];
        }
      }
    } else {
      var w', r' := WordsAndRunsOf(s[1..]);
      var head := [s[0]] + w'[0];
      words, runs := [head] + w'[1..], r';
      assert Spaceless(head) by {
        assert forall i :: 0 < i < |head| ==> head[i] == w'[0][i - 1];
      }
      assert forall k :: 0 < k < |words| ==> words[k] == w'[k];
      InterleaveHead(s[0], w', r');
      assert [s[0]] + s[1..] == s;
    }
  }

  /** Putting a character in front of the first word puts it in front of
      the text. */
  lemma InterleaveHead(c: char, words: seq<string>, runs: seq<string>)
    requires |words| >= 1 && |runs| == |words| - 1
    ensures Interleave([[c] + words[0]] + words[1..], runs) == [c] + Interleave(words, runs)
  {
    var ws := [[c] + words[0]] + words[1..];
    if |words| > 1 {
      assert ws[1..] == words[1..];
    }
  }

  /** `replace(/\s+/g, '.')` keeps the words and puts one '.' where each
      run was. */
  lemma {:induction false} CollapseWords(words: seq<string>, runs: seq<string>)
    requires WordsAndRuns(words, runs)
    ensures CollapseSpaces(Interleave(words, runs)) == Join(words, '.')
    decreases |words|
  {
    if |words| == 1 {
      CollapseKeepsSpaceless(words[0]);
    } else {
      var rest := Interleave(words[1..], runs[1..]);
      WordsAndRunsTail(words, runs);
      CollapseWords(words[1..], runs[1..]);
      if |words| > 2 {
        assert words[1] != [];
        assert rest[0] == words[1][0];
      }
      CollapseRun(words[0], runs[0], rest);
    }
  }

  /** The lower-cased words, in order. */
  function LowerWords(words: seq<string>): (r: seq<string>)
    ensures |r| == |words|
    ensures forall k :: 0 <= k < |words| ==> r[k] == LowerCase(words[k])
  {
    seq(|words|, k requires 0 <= k < |words| => LowerCase(words[k]))
  }

  lemma LowerCaseAppend(a: string, b: string)
    ensures LowerCase(a + b) == LowerCase(a) + LowerCase(b)
  {
    var l := LowerCase(a + b);
    var e := LowerCase(a) + LowerCase(b);
    assert |l| == |e|;
    forall i | 0 <= i < |l| ensures l[i] == e[i] {
      if i < |a| {
        assert (a + b)[i] == a[i];
      } else {
        assert (a + b)[i] == b[i - |a|];
      }
    }
  }

  lemma WordsAndRunsTail(words: seq<string>, runs: seq<string>)
    requires WordsAndRuns(words, runs) && |words| > 1
    ensures WordsAndRuns(words[1..], runs[1..])
  {
    forall k | 0 <= k < |words| - 1 ensures Spaceless(words[1..][k]) {
      assert words[1..][k] == words[k + 1];
    }
  }

  /** Lower-casing keeps a word free of white space and a run blank. */
  lemma LowerSpaceless(w: string)
    requires Spaceless(w)
    ensures Spaceless(LowerCase(w))
  {
    assert forall i :: 0 <= i < |w| ==> LowerCase(w)[i] == ToLower(w[i]);
  }

  lemma LowerBlank(run: string)
    requires IsBlank(run)
    ensures LowerCase(run) == run
  {
    assert forall i :: 0 <= i < |run| ==> IsSpace(run[i]);
  }

  lemma LowerKeepsShape(words: seq<string>, runs: seq<string>)
    requires WordsAndRuns(words, runs)
    ensures WordsAndRuns(LowerWords(words), runs)
  {
    var lw := LowerWords(words);
    forall k | 0 <= k < |words| ensures Spaceless(lw[k]) {
      LowerSpaceless(words[k]);
    }
  }

  /** Lower-casing leaves white-space runs alone. */
  lemma {:induction false} LowerInterleave(words: seq<string>, runs: seq<string>)
    requires WordsAndRuns(words, runs)
    ensures LowerCase(Interleave(words, runs)) == Interleave(LowerWords(words), runs)
    decreases |words|
  {
    if |words| > 1 {
      WordsAndRunsTail(words, runs);
      LowerInterleave(words[1..], runs[1..]);
      assert LowerWords(words[1..]) == LowerWords(words)[1..];
      LowerBlank(runs[0]);
      LowerCaseAppend(words[0] + runs[0], Interleave(words[1..], runs[1..]));
      LowerCaseAppend(words[0], runs[0]);
    }
  }

  const MailDomain := "@example.com"

  /** `` `${name.toLowerCase().replace(/\s+/g, '.')}@example.com` ``. */
  function MockEmail(name: string): (e: string)
    ensures |e| >= |MailDomain| && e[|e| - |MailDomain|..] == MailDomain
    ensures forall i :: 0 <= i < |e| ==> !IsSpace(e[i])
  {
    var local := CollapseSpaces(LowerCase(name));
    assert forall i :: 0 <= i < |MailDomain| ==> !IsSpace(MailDomain[i]);
    local + MailDomain
  }

  /** A name that is one lower-case word without white space keeps its text. */
  lemma MockEmailOfPlainName(name: string)
    requires forall i :: 0 <= i < |name| ==> !IsSpace(name[i]) && !('A' <= name[i] <= 'Z')
    ensures MockEmail(name) == name + MailDomain
  {
    assert LowerCase(name) == name;
    CollapseKeepsSpaceless(name);
  }

  /** A name of several words: the mock address is the lower-cased words
      joined by single dots, whatever white space separated them. */
  lemma MockEmailOfWords(words: seq<string>, runs: seq<string>)
    requires WordsAndRuns(words, runs)
    ensures MockEmail(Interleave(words, runs)) == Join(LowerWords(words), '.') + MailDomain
  {
    LowerInterleave(words, runs);
    LowerKeepsShape(words, runs);
    CollapseWords(LowerWords(words), runs);
  }

  lemma AnnLeeShape()
    ensures Interleave(["Ann", "Lee"], ["  "]) == "Ann  Lee"
    ensures WordsAndRuns(["Ann", "Lee"], ["  "])
  {
    var words := ["Ann", "Lee"];
    var runs := ["  "];
    assert Interleave(words[1..], runs[1..]) == "Lee";
    assert Spaceless("Ann") && Spaceless("Lee") && IsBlank("  ");
  }

  /** For instance, "Ann  Lee" gets "ann.lee@example.com". */
  lemma MockEmailExample()
    ensures MockEmail("Ann  Lee") == "ann.lee" + MailDomain
  {
    var words := ["Ann", "Lee"];
    var runs := ["  "];
    AnnLeeShape();
    MockEmailOfWords(words, runs);
    var lower := LowerWords(words);
    assert LowerCase("Ann") == "ann" by {
      assert LowerCase("Ann")[0] == 'a';
    }
    assert LowerCase("Lee") == "lee" by {
      assert LowerCase("Lee")[0] == 'l';
    }
    assert lower == ["ann", "lee"] by {
      assert lower[0] == LowerCase(words[0]) && lower[1] == LowerCase(words[1]);
    }
    assert Join(lower, '.') == "ann.lee";
  }

  function MockEmails(names: seq<string>): (r: seq<string>)
    ensures |r| == |names|
    ensures forall i :: 0 <= i < |names| ==> r[i] == MockEmail(names[i])
  {
    seq(|names|, i requires 0 <= i < |names| => MockEmail(names[i]))
  }

  /** `memberEmails.join(',')`: empty for an empty list. */
  function BccList(emails: seq<string>): string
  {
    if emails == [] then [] else Join(emails, ',')
  }

  /** `handleGroupEmail`: the `mailto:` link it opens. */
  function GroupMailto(members: seq<string>): string
  {
    "mailto:?bcc=" + BccList(MockEmails(members))
  }

  /** When no member name contains ',', the recipients split back out of
      the link one per member, in order. */
  lemma GroupMailtoRecipients(members: seq<string>)
    requires |members| >= 1
    requires forall i :: 0 <= i < |members| ==> ',' !in members[i]
    ensures var link := GroupMailto(members);
      && link[..12] == "mailto:?bcc="
      && Split(link[12..], ',') == MockEmails(members)
  {
    var emails := MockEmails(members);
    forall i | 0 <= i < |emails| ensures ',' !in emails[i] {
      NoCommaInMockEmail(members[i]);
    }
    SplitJoin(emails, ',');
    var link := GroupMailto(members);
    assert link[12..] == BccList(emails);
  }

  lemma NoCommaInMockEmail(name: string)
    requires ',' !in name
    ensures ',' !in MockEmail(name)
  {
    NoCommaLower(name);
    NoCommaCollapse(LowerCase(name));
  }

  lemma NoCommaLower(s: string)
    requires ',' !in s
    ensures ',' !in LowerCase(s)
  {
    assert forall i :: 0 <= i < |s| ==> LowerCase(s)[i] != ',';
  }

  lemma {:induction false} NoCommaCollapse(s: string)
    requires ',' !in s
    ensures ',' !in CollapseSpaces(s)
    decreases |s|
  {
    if s != [] {
      var tail := s[1..];
      assert forall i :: 0 <= i < |tail| ==> tail[i] == s[i + 1];
      assert ',' !in tail;
      if IsSpace(s[0]) {
        var t := TrimStart(tail);
        TrimStartShape(tail);
        assert forall i :: 0 <= i < |t| ==> t[i] == tail[|tail| - |t| + i];
        assert ',' !in t;
        NoCommaCollapse(t);
      } else {
        NoCommaCollapse(tail);
      }
    }
  }

  // ---------------------------------------------------------------------
  // Friends

  const Friends: seq<string> := ["Nico", "AJ", "Bennet", "Alice", "Eli"]

  /** The badge text next to a member: `friends.includes(member)`. */
  function FriendLabel(member: string): (badge: string)
    ensures badge == "Friend" <==> member in Friends
    ensures badge == "Friend" || badge == "Add Friend"
  {
    if member in Friends then "Friend" else "Add Friend"
  }
}
