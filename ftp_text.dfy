/**
  The text the FTP purge reads from the server: `LIST` lines, whose format
  section 4.1.3 of RFC 959 leaves to the server and which the purge takes
  to be Unix `ls -l` lines of at least nine fields; and replies, classified
  the way Python's `ftplib` does (a reply starting with 1, 2 or 3 is
  returned, 4 raises `error_temp`, 5 raises `error_perm`, anything else
  `error_proto`), including the `MDTM` reply of section 3 of RFC 3659,
  code 213 followed by a `YYYYMMDDHHMMSS` time stamp.
*/
module FtpText {
  import opened Common

  // ---------------------------------------------------------------------
  // LIST lines.

  /** The entry name of a `LIST` line: fields 9 and onwards, joined by
      single spaces; `None` when the line has fewer than nine fields. */
  function ListName(line: string): (name: Option<string>)
    ensures name.Some? <==> |Words(line)| >= 9
  {
    var parts := Words(line);
    if |parts| < 9 then None else Some(JoinWith(parts[8..], " "))
  }

  /** `linea.startswith('d')`: the line describes a directory. */
  predicate DirLine(line: string) {
    StartsWith(line, "d")
  }

  predicate GoodField(w: string) {
    w != [] && SpaceFree(w)
  }

  /** A line built from eight leading fields and a name made of words
      separated by single spaces gives that name back. */
  lemma ListNameOfLine(fields: seq<string>, nameWords: seq<string>)
    requires |fields| == 8 && |nameWords| >= 1
    requires forall k :: 0 <= k < |fields| ==> GoodField(fields[k])
    requires forall k :: 0 <= k < |nameWords| ==> GoodField(nameWords[k])
    ensures ListName(JoinWith(fields + nameWords, " ")) == Some(JoinWith(nameWords, " "))
  {
    var all := fields + nameWords;
    assert forall k :: 0 <= k < |all| ==> all[k] != [] && SpaceFree(all[k]) by {
      forall k | 0 <= k < |all| ensures all[k] != [] && SpaceFree(all[k]) {
        if k < 8 {
          assert all[k] == fields[k];
        } else {
          assert all[k] == nameWords[k - 8];
        }
      }
    }
    WordsOfJoin(all);
    assert all[8..] == nameWords;
  }

  // ---------------------------------------------------------------------
  // Replies.

  /** What the server answers to one command: a reply line, or nothing
      because the control connection broke. */
  datatype Reply = Line(text: string) | Dropped

  /** How `ftplib` hands a reply to the caller. */
  datatype Outcome = Returned(text: string) | ErrorTemp | ErrorPerm | ErrorProto | ErrorReply | ConnectionLost

  /** `FTP.sendcmd`: the first character of the reply decides. */
  function SendCmd(rep: Reply): (o: Outcome)
    ensures o.Returned? ==> rep.Line? && o.text == rep.text
    ensures o == ErrorPerm <==> rep.Line? && StartsWith(rep.text, "5")
  {
    match rep
    case Dropped => ConnectionLost
    case Line(t) =>
      if t == [] then ErrorProto
      else if t[0] == '1' || t[0] == '2' || t[0] == '3' then Returned(t)
      else if t[0] == '4' then ErrorTemp
      else if t[0] == '5' then ErrorPerm
      else ErrorProto
  }

  /** `FTP.delete`: a returned reply other than 250 or 200 raises
      `error_reply`. */
  function Delete(rep: Reply): (o: Outcome)
    ensures o.Returned? <==> rep.Line? && (StartsWith(rep.text, "250") || StartsWith(rep.text, "200"))
  {
    var o := SendCmd(rep);
    if o.Returned? && !(StartsWith(o.text, "250") || StartsWith(o.text, "200")) then ErrorReply else o
  }

  /** The purge only warns about `error_perm`; every other exception
      counts as an error. */
  predicate Counted(o: Outcome) {
    !o.Returned? && o != ErrorPerm
  }

  // ---------------------------------------------------------------------
  // MDTM time stamps.

  datatype Stamp = Stamp(year: int, month: int, day: int, hour: int, minute: int, second: int)

  predicate Leap(y: int) {
    y % 4 == 0 && (y % 100 != 0 || y % 400 == 0)
  }

  function DaysInMonth(y: int, m: int): int
    requires 1 <= m <= 12
  {
    if m == 2 then (if Leap(y) then 29 else 28)
    else if m == 4 || m == 6 || m == 9 || m == 11 then 30
    else 31
  }

  /** The ranges `time.strptime` accepts: years from 1, real calendar
      days, hours to 23, minutes to 59 and seconds to 61. */
  predicate ValidStamp(st: Stamp) {
    && 1 <= st.year <= 9999
    && 1 <= st.month <= 12
    && 1 <= st.day <= DaysInMonth(st.year, st.month)
    && 0 <= st.hour <= 23
    && 0 <= st.minute <= 59
    && 0 <= st.second <= 61
  }

  predicate IsDigit(c: char) {
    '0' <= c <= '9'
  }

  function DigitsValue(s: string): (n: nat)
    requires forall i :: 0 <= i < |s| ==> IsDigit(s[i])
  {
    if s == [] then 0
    else
      assert IsDigit(s[|s| - 1]);
      DigitsValue(s[..|s| - 1]) * 10 + (s[|s| - 1] as int - '0' as int)
  }

  /** The `YYYYMMDDHHMMSS` time value of an `MDTM` reply, which section 3
      of RFC 3659 requires to be fourteen digits. `time.strptime(text,
      '%Y%m%d%H%M%S')` agrees on such a text; it also accepts fields
      without their leading zeros, which this function rejects. `None`
      is a text that is not a valid fourteen-digit time. */
  function ParseStamp(text: string): (r: Option<Stamp>)
    ensures r.Some? ==> ValidStamp(r.value) && |text| == 14
  {
    if |text| != 14 || !(forall i :: 0 <= i < 14 ==> IsDigit(text[i])) then None
    else
      var st := Stamp(DigitsValue(text[..4]), DigitsValue(text[4..6]), DigitsValue(text[6..8]),
                      DigitsValue(text[8..10]), DigitsValue(text[10..12]), DigitsValue(text[12..]));
      if ValidStamp(st) then Some(st) else None
  }

  /** `n` written with exactly `width` digits, zero-padded on the left. */
  function Pad(n: nat, width: nat): (s: string)
    ensures |s| == width
    ensures forall i :: 0 <= i < |s| ==> IsDigit(s[i])
  {
    if width == 0 then "" else Pad(n / 10, width - 1) + [DigitChar(n % 10)]
  }

  function Pow10(k: nat): nat {
    if k == 0 then 1 else 10 * Pow10(k - 1)
  }

  lemma {:induction false} PadValue(n: nat, width: nat)
    requires n < Pow10(width)
    ensures DigitsValue(Pad(n, width)) == n
  {
    if width > 0 {
      var s := Pad(n, width);
      assert s[..|s| - 1] == Pad(n / 10, width - 1);
      PadValue(n / 10, width - 1);
    }
  }

  /** The `YYYYMMDDHHMMSS` text of a stamp. */
  function FormatStamp(st: Stamp): (s: string)
    requires ValidStamp(st)
    ensures |s| == 14
  {
    Pad(st.year, 4) + Pad(st.month, 2) + Pad(st.day, 2) + Pad(st.hour, 2) + Pad(st.minute, 2) + Pad(st.second, 2)
  }

  /** Every valid stamp survives formatting and parsing. */
  lemma ParseFormat(st: Stamp)
    requires ValidStamp(st)
    ensures ParseStamp(FormatStamp(st)) == Some(st)
  {
    var s := FormatStamp(st);
    assert s[..4] == Pad(st.year, 4);
    assert s[4..6] == Pad(st.month, 2);
    assert s[6..8] == Pad(st.day, 2);
    assert s[8..10] == Pad(st.hour, 2);
    assert s[10..12] == Pad(st.minute, 2);
    assert s[12..] == Pad(st.second, 2);
    assert Pow10(2) == 100 && Pow10(4) == 10000;
    PadValue(st.year, 4);
    PadValue(st.month, 2);
    PadValue(st.day, 2);
    PadValue(st.hour, 2);
    PadValue(st.minute, 2);
    PadValue(st.second, 2);
  }

  /** Days from 1 January of year 1 to 1 January of year `y`. */
  function DaysBeforeYear(y: int): int {
    var p := y - 1;
    365 * p + p / 4 - p / 100 + p / 400
  }

  function DaysBeforeMonth(y: int, m: int): int
    requires 1 <= m <= 12
    decreases m
  {
    if m == 1 then 0 else DaysBeforeMonth(y, m - 1) + DaysInMonth(y, m - 1)
  }

  const EpochDay := 719162

  /** `time.mktime` of a parsed stamp in a zone `utcOffset` seconds east of
      UTC, seconds 60 and 61 carrying into the next minute. */
  function EpochSeconds(st: Stamp, utcOffset: int): int
    requires ValidStamp(st)
  {
    var days := DaysBeforeYear(st.year) + DaysBeforeMonth(st.year, st.month) + st.day - 1 - EpochDay;
    days * 86400 + st.hour * 3600 + st.minute * 60 + st.second - utcOffset
  }

  /** What the purge makes of an `MDTM` outcome. */
  datatype Age = Mtime(seconds: int) | NoStamp | BadStamp

  /** A returned reply starting with 213 carries the stamp after its first
      four characters; any other returned reply carries none. */
  function ReadMdtm(text: string, utcOffset: int): (a: Age)
    ensures a.Mtime? ==> StartsWith(text, "213")
    ensures !StartsWith(text, "213") ==> a == NoStamp
  {
    if !StartsWith(text, "213") then NoStamp
    else
      var rest := if |text| >= 4 then text[4..] else "";
      match ParseStamp(Strip(rest))
      case None => BadStamp
      case Some(st) => Mtime(EpochSeconds(st, utcOffset))
  }

  /** The reply `213 YYYYMMDDHHMMSS` yields that instant. */
  lemma ReadMdtmOfReply(st: Stamp, utcOffset: int)
    requires ValidStamp(st)
    ensures ReadMdtm("213 " + FormatStamp(st), utcOffset) == Mtime(EpochSeconds(st, utcOffset))
  {
    var text := "213 " + FormatStamp(st);
    assert StartsWith(text, "213");
    assert text[4..] == FormatStamp(st);
    var f := FormatStamp(st);
    assert !IsSpace(f[0]) && !IsSpace(f[|f| - 1]);
    LStripNoop(f);
    ParseFormat(st);
  }
}
