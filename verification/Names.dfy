/** Names the program makes up: for the losing version of a conflict, and for a
    file sent here whose name is taken -- and reading the first kind back. */
module Names {
  import opened Wrappers
  import opened Versions
  import Text

  /** The directory part of a path, up to and including its last slash. */
  function Dir(path: string): (dir: string)
    ensures dir <= path && '/' !in path[|dir|..]
    ensures dir == "" || dir[|dir| - 1] == '/'
  {
    if path == "" || path[|path| - 1] == '/' then path
    else
      var dir := Dir(path[..|path| - 1]);
      assert path[|dir|..] == path[..|path| - 1][|dir|..] + [path[|path| - 1]];
      dir
  }

  lemma {:induction false} DirIs(dir: string, name: string)
    requires '/' !in name && (dir == "" || dir[|dir| - 1] == '/')
    ensures Dir(dir + name) == dir
  {
    if name != "" {
      var n := |name| - 1;
      assert (dir + name)[..|dir + name| - 1] == dir + name[..n];
      assert (dir + name)[|dir + name| - 1] == name[n];
      DirIs(dir, name[..n]);
    } else {
      assert dir + name == dir;
    }
  }

  /** Where a name's extension begins: its last dot, a leading one excepted. */
  function ExtensionAt(name: string): (i: nat)
    ensures i <= |name|
    ensures i < |name| ==> i > 0 && name[i] == '.' && '.' !in name[i + 1..]
  {
    var n := |name| - 1;
    if |name| < 2 then |name|
    else if name[n] == '.' then n
    else
      var i := ExtensionAt(name[..n]);
      assert i < n ==> name[i + 1..] == name[..n][i + 1..] + [name[n]];
      if i == n then |name| else i
  }

  // ----- dates

  function Digit(n: nat): char { ('0' as int + n % 10) as char }

  function Two(n: nat): string { [Digit(n / 10), Digit(n)] }

  /** A year in four places, as many more as it needs, the sign counting as one. */
  function Year(y: int): string {
    if 0 <= y <= 9999 then Two(y / 100) + Two(y)
    else if y > 9999 then Text.Decimal(y)
    else if y >= -999 then "-" + [Digit(-y / 100), Digit(-y / 10), Digit(-y)]
    else "-" + Text.Decimal(-y)
  }

  /** A calendar date, UTC. */
  datatype Date = Date(year: int, month: nat, day: nat)

  /** Days in the first `y` years of an era of four hundred, the year taken to start in
      March, so that a leap day is its last. */
  function YearStart(y: nat): nat { 365 * y + y / 4 - y / 100 }

  function YearOfEra(doe: nat): nat { (doe - doe / 1460 + doe / 36524 - doe / 146096) / 365 }

  /** The date so many days into such a year. */
  function FromMarch(year: int, doy: nat): Date {
    var mp := (5 * doy + 2) / 153;
    var d := doy - (153 * mp + 2) / 5 + 1;
    var m := if mp < 10 then mp + 3 else mp - 9;
    Date(if m <= 2 then year + 1 else year, if m > 0 then m else 0, if d > 0 then d else 0)
  }

  /** The date so many days after 1970 began. */
  function CivilFromDays(days: int): (date: Date)
    ensures 1 <= date.month <= 12 && 1 <= date.day <= 31
  {
    var z := days + 719468;
    var era := z / 146097;
    var doe := z % 146097;
    var yoe := YearOfEra(doe);
    YearHolds(doe);
    var date := FromMarch(yoe + era * 400, doe - YearStart(yoe));
    date
  }

  predicate IsLeap(year: int) { year % 4 == 0 && (year % 100 != 0 || year % 400 == 0) }

  function DaysIn(year: int, month: nat): nat {
    if month == 2 then (if IsLeap(year) then 29 else 28)
    else if month == 4 || month == 6 || month == 9 || month == 11 then 30 else 31
  }

  /** The calendar, one day to the next. */
  function NextDay(date: Date): Date {
    if date.day < DaysIn(date.year, date.month) then date.(day := date.day + 1)
    else if date.month < 12 then Date(date.year, date.month + 1, 1)
    else Date(date.year + 1, 1, 1)
  }

  /** A day of an era lies in the year found for it. */
  lemma YearHolds(doe: nat)
    requires doe < 146097
    ensures var y := YearOfEra(doe);
      && doe - doe / 1460 + doe / 36524 - doe / 146096 >= 0
      && 0 <= y < 400 && YearStart(y) <= doe && (doe < YearStart(y + 1) || (y == 399 && doe == 146096))
      && doe - YearStart(y) <= 365
  {
    var n := doe - doe / 1460 + doe / 36524 - doe / 146096;
    assert n >= 0;
    var y := YearOfEra(doe);
    YearBegan(doe, doe / 1460, doe / 36524, doe / 146096, y, y / 4, y / 100);
    YearNotOver(doe, doe / 1460, doe / 36524, doe / 146096, y, (y + 1) / 4, (y + 1) / 100);
  }

  lemma YearBegan(doe: int, q1: int, q2: int, q3: int, yoe: int, a: int, b: int)
    requires 0 <= doe < 146097 && 1460 * q1 <= doe < 1460 * q1 + 1460
    requires 36524 * q2 <= doe < 36524 * q2 + 36524 && 146096 * q3 <= doe < 146096 * q3 + 146096
    requires 365 * yoe <= doe - q1 + q2 - q3 < 365 * yoe + 365
    requires 4 * a <= yoe < 4 * a + 4 && 100 * b <= yoe < 100 * b + 100
    ensures 0 <= yoe < 400 && 365 * yoe + a - b <= doe
  {
    assert q2 <= q1 && 1460 * a <= doe;
    assert a <= q1;
    if q3 == 0 {
      assert q1 - 25 * q2 <= doe - 36524 * q2;
      assert q2 <= b;
    } else {
      assert doe == 146096 && q1 == 100 && q2 == 4;
    }
  }

  lemma YearNotOver(doe: int, q1: int, q2: int, q3: int, yoe: int, a: int, b: int)
    requires 0 <= doe < 146097 && 1460 * q1 <= doe < 1460 * q1 + 1460
    requires 36524 * q2 <= doe < 36524 * q2 + 36524 && 146096 * q3 <= doe < 146096 * q3 + 146096
    requires 365 * yoe <= doe - q1 + q2 - q3 < 365 * yoe + 365
    requires 4 * a <= yoe + 1 < 4 * a + 4 && 100 * b <= yoe + 1 < 100 * b + 100
    ensures doe < 365 * (yoe + 1) + a - b || (yoe == 399 && doe == 146096)
  {}

  /** The calendar within a year that starts in March: one date to the next, and the last of
      a year -- a leap year's one day later -- to the first of March. */
  lemma MarchYear(year: int, doy: nat)
    requires doy <= 365 && (doy == 365 ==> IsLeap(year + 1))
    ensures NextDay(FromMarch(year, doy)) ==
      if doy == (if IsLeap(year + 1) then 365 else 364) then FromMarch(year + 1, 0) else FromMarch(year, doy + 1)
  {
    var mp := (5 * doy + 2) / 153;
    assert mp in {0, 1, 2, 3, 4, 5, 6, 7, 8, 9, 10, 11};
  }

  /** Which year of an era is a day longer. */
  lemma YearLength(y: nat, era: int)
    requires y < 400
    ensures YearStart(y + 1) - YearStart(y) + (if y == 399 then 1 else 0)
      == if IsLeap(y + era * 400 + 1) then 366 else 365
  {
    SameRemainder(y + 1, 4, era * 100);
    SameRemainder(y + 1, 100, era * 4);
    SameRemainder(y + 1, 400, era);
    Carries(y);
  }

  lemma SameRemainder(n: int, m: nat, k: int)
    requires m in {4, 100, 400}
    ensures (n + k * m) % m == n % m
  {}

  lemma Carries(y: nat)
    ensures (y + 1) / 4 - y / 4 == (if (y + 1) % 4 == 0 then 1 else 0)
    ensures (y + 1) / 100 - y / 100 == (if (y + 1) % 100 == 0 then 1 else 0)
  {}

  /** The count of days goes through the calendar one day at a time, from the first of
      January 1970, in both directions. */
  lemma DaysFollowTheCalendar(days: int)
    ensures CivilFromDays(0) == Date(1970, 1, 1)
    ensures CivilFromDays(days + 1) == NextDay(CivilFromDays(days))
  {
    FirstDay();
    var z := days + 719468;
    var era, doe := z / 146097, z % 146097;
    assert z == 146097 * era + doe;
    hide *;
    if doe == 146096 {
      LastDayOfEra(days, era);
    } else {
      DayWithinEra(days, era, doe);
    }
  }

  lemma LastDayOfEra(days: int, era: int)
    requires days + 719468 == 146097 * era + 146096
    ensures CivilFromDays(days + 1) == NextDay(CivilFromDays(days))
  {
    hide YearOfEra, YearStart, FromMarch, NextDay, IsLeap, CivilFromDays;
    FirstOfEra();
    LastOfEra();
    LastYearBegins();
    DateIs(days, era, 146096);
    DateIs(days + 1, era + 1, 0);
    YearLength(399, era);
    assert IsLeap(399 + era * 400 + 1);
    MarchYear(399 + era * 400, 365);
  }

  lemma DayWithinEra(days: int, era: int, doe: nat)
    requires days + 719468 == 146097 * era + doe && doe < 146096
    ensures CivilFromDays(days + 1) == NextDay(CivilFromDays(days))
  {
    hide YearOfEra, YearStart, FromMarch, NextDay, IsLeap, CivilFromDays;
    DateIs(days, era, doe);
    DateIs(days + 1, era, doe + 1);
    YearHolds(doe);
    YearHolds(doe + 1);
    var y, n := YearOfEra(doe), YearOfEra(doe + 1);
    YearLength(y, era);
    OneYear(y, n, doe);
    LastYearBegins();
    MarchYear(y + era * 400, doe - YearStart(y));
  }

  lemma FirstOfEra()
    ensures YearOfEra(0) == 0 && YearStart(0) == 0
  {}

  lemma LastOfEra()
    ensures YearOfEra(146096) == 399
  {}

  lemma LastYearBegins()
    ensures YearStart(399) == 145731 && YearStart(400) == 146096
  {}

  lemma DateIs(days: int, era: int, doe: nat)
    requires days + 719468 == 146097 * era + doe && doe < 146097
    ensures 0 <= YearOfEra(doe) && YearStart(YearOfEra(doe)) <= doe
    ensures CivilFromDays(days) == FromMarch(YearOfEra(doe) + era * 400, doe - YearStart(YearOfEra(doe)))
  {
    IsQuotient(days + 719468, era, doe);
    YearHolds(doe);
    hide FromMarch, YearOfEra, YearStart;
  }

  lemma FirstDay()
    ensures CivilFromDays(0) == Date(1970, 1, 1)
  {
    DateIs(0, 4, 135080);
    hide CivilFromDays, YearOfEra, YearStart;
  }

  lemma IsQuotient(z: int, q: int, r: nat)
    requires z == 146097 * q + r && r < 146097
    ensures z / 146097 == q && z % 146097 == r
  {}

  /** The next day is in the same year, or is the first of the next. */
  lemma OneYear(y: nat, n: nat, doe: nat)
    requires y < 400 && n < 400 && doe + 1 < 146097
    requires YearStart(y) <= doe && (doe < YearStart(y + 1) || (y == 399 && doe == 146096))
    requires YearStart(n) <= doe + 1 && (doe + 1 < YearStart(n + 1) || (n == 399 && doe + 1 == 146096))
    ensures n == (if doe + 1 == YearStart(y + 1) && y < 399 then y + 1 else y)
  {
    if n < y { YearsAscend(n + 1, y); }
    if n > y + 1 { YearsAscend(y + 2, n); }
    if n > y { YearsAscend(y + 1, n); }
  }

  lemma {:induction false} YearsAscend(a: nat, b: nat)
    requires a <= b
    ensures YearStart(a) <= YearStart(b)
    decreases b
  {
    if a < b { YearsAscend(a, b - 1); }
  }

  /** `YYYY-MM-DD-HHMMSS`, UTC. */
  function FormatUtc(unix: int): string {
    var date := CivilFromDays(unix / 86400);
    var secs := unix % 86400;
    Year(date.year) + "-" + Two(date.month) + "-" + Two(date.day) + "-"
    + Two(secs / 3600) + Two(secs % 3600 / 60) + Two(secs % 60)
  }

  function YearOf(unix: int): int { CivilFromDays(unix / 86400).year }

  // ----- made-up names

  function ShortId(d: DeviceId): string { if |d| < 8 then d else d[..8] }

  function Base(v: FileVersion): string { v.path[|Dir(v.path)|..] }

  function Stem(v: FileVersion): string { Base(v)[..ExtensionAt(Base(v))] }

  function Extension(v: FileVersion): string { Base(v)[ExtensionAt(Base(v))..] }

  /** A name beside this one can be made up. The program looks for the extension from the
      second byte of the last component on, and stops if that is inside a character. */
  predicate CanDecorate(path: string) {
    var name := path[|Dir(path)|..];
    name != "" && name[0] as int < 128
  }

  /** A name that begins with a character of two bytes. */
  const UMLAUT := "\U{00FC}.txt"

  const CAPITAL_UMLAUT := "\U{00DC}.txt"

  lemma UmlautCannot()
    ensures Dir(UMLAUT) == "" && !CanDecorate(UMLAUT)
  {
    assert UMLAUT[0] == '\U{00FC}' && "" + UMLAUT == UMLAUT == UMLAUT[0..];
    DirIs("", UMLAUT);
  }

  /** `stem.<marker>-<device>-<when>.ext`, beside the original. */
  function Decoration(v: FileVersion, marker: string): string {
    Dir(v.path) + (Stem(v) + "." + marker + "-" + ShortId(v.author) + "-" + FormatUtc(v.at) + Extension(v))
  }

  /** The same as the program makes it: none, where it stops. */
  function Decorated(v: FileVersion, marker: string): Option<string> {
    if CanDecorate(v.path) then Some(Decoration(v, marker)) else None
  }

  /** Where the losing version of a conflict is written, if a name can be made up. */
  function ConflictPath(v: FileVersion): string { Decoration(v, "conflict") }

  /** Where a file sent here goes when its name is taken, if one can. */
  function ReceivedPath(v: FileVersion): string { Decoration(v, "from") }

  predicate IsDateText(s: string) {
    forall i | 0 <= i < |s| :: s[i] == '-' || '0' <= s[i] <= '9'
  }

  lemma DateText(unix: int)
    ensures IsDateText(FormatUtc(unix))
  {
    var date := CivilFromDays(unix / 86400);
    var secs := unix % 86400;
    var y, m, d := Year(date.year), Two(date.month), Two(date.day);
    var h, n, c := Two(secs / 3600), Two(secs % 3600 / 60), Two(secs % 60);
    assert FormatUtc(unix) == y + "-" + m + "-" + d + "-" + h + n + c;
    assert IsDateText("-") && IsDateText(y) && IsDateText(m) && IsDateText(d) && IsDateText(h) && IsDateText(n)
      && IsDateText(c);
    hide *;
  }

  /** Whatever is made up stays in the directory of the original, and is a longer
      name than it; and something is, exactly where the name's first character is of one
      byte. */
  lemma DecoratedStaysBeside(v: FileVersion, marker: string)
    requires '/' !in v.author && '/' !in marker
    ensures Decorated(v, marker).Some? <==> Base(v) != "" && Base(v)[0] as int < 128
    ensures match Decorated(v, marker)
            case Some(path) => Dir(path) == Dir(v.path) && |path| > |v.path| + |marker|
            case None => true
  {
    DecorationBeside(v, marker);
  }

  lemma DecorationBeside(v: FileVersion, marker: string)
    requires '/' !in v.author && '/' !in marker
    ensures Dir(Decoration(v, marker)) == Dir(v.path)
    ensures |Decoration(v, marker)| > |v.path| + |marker|
  {
    var name := Stem(v) + "." + marker + "-" + ShortId(v.author) + "-" + FormatUtc(v.at) + Extension(v);
    DateText(v.at);
    hide FormatUtc, Dir, ExtensionAt;
    assert Base(v) == Stem(v) + Extension(v) && v.path == Dir(v.path) + Base(v);
    assert '/' !in ShortId(v.author);
    assert '/' !in Stem(v) && '/' !in Extension(v);
    assert '/' !in FormatUtc(v.at);
    hide Stem, Extension, ShortId;
    DirIs(Dir(v.path), name);
  }

  // ----- reading a conflict copy's name back

  datatype ConflictName = ConflictName(original: string, device: string, when: string)

  function Mark(): (mark: string)
    ensures |mark| == 10 && mark[0] == '.' && '.' !in mark[1..]
  {
    ".conflict-"
  }

  predicate OccursAt(s: string, pat: string, i: int) {
    0 <= i <= |s| - |pat| && s[i..i + |pat|] == pat
  }

  /** Where `pat` last occurs in the first `n` characters it could start at. */
  function LastAt(s: string, pat: string, n: nat): (r: Option<nat>)
    ensures r.Some? ==> r.value < n && OccursAt(s, pat, r.value) && forall i | r.value < i < n :: !OccursAt(s, pat, i)
    ensures r.None? ==> forall i | 0 <= i < n :: !OccursAt(s, pat, i)
  {
    if n == 0 then None
    else if OccursAt(s, pat, n - 1) then Some(n - 1)
    else LastAt(s, pat, n - 1)
  }

  predicate IsHex(s: string) {
    forall i | 0 <= i < |s| :: '0' <= s[i] <= '9' || 'a' <= s[i] <= 'f'
  }

  /** Seventeen characters: digits, and dashes where a date has them. */
  predicate IsStamp(s: string) {
    |s| == 17
    && forall i | 0 <= i < 17 :: if i == 4 || i == 7 || i == 10 then s[i] == '-' else '0' <= s[i] <= '9'
  }

  predicate IsExtension(s: string) { s == "" || (s[0] == '.' && '.' !in s[1..]) }

  /** A copy's name taken apart; nothing, of any other name. */
  function ConflictOrigin(path: string): Option<ConflictName> {
    var dir := Dir(path);
    var name := path[|dir|..];
    match LastAt(name, Mark(), |name|)
    case None => None
    case Some(at) => ReadTag(dir, name[..at], name[at + |Mark()|..])
  }

  /** The same, from the parts before and after the mark. */
  function ReadTag(dir: string, stem: string, rest: string): Option<ConflictName> {
    if |rest| < 26 then None
    else
      var device, when, ext := rest[..8], rest[9..26], rest[26..];
      if stem == "" || rest[8] != '-' || !IsHex(device) || !IsStamp(when) || !IsExtension(ext) then None
      else Some(ConflictName(dir + (stem + ext), device, when))
  }

  /** A device's identity: its bytes in lower-case hexadecimal. */
  predicate IsDevice(d: DeviceId) { |d| == 64 && IsHex(d) }

  lemma StampText(unix: int)
    requires 0 <= YearOf(unix) <= 9999
    ensures IsStamp(FormatUtc(unix))
  {
    var date := CivilFromDays(unix / 86400);
    var secs := unix % 86400;
    var y, m, d := Year(date.year), Two(date.month), Two(date.day);
    var h, n, c := Two(secs / 3600), Two(secs % 3600 / 60), Two(secs % 60);
    assert FormatUtc(unix) == y + "-" + m + "-" + d + "-" + h + n + c;
    assert |y| == 4 && Text.IsDigits(y) && Text.IsDigits(m) && Text.IsDigits(d) && Text.IsDigits(h) && Text.IsDigits(n)
      && Text.IsDigits(c);
    hide Two, Year, CivilFromDays, FormatUtc;
  }

  /** The copy's name, taken apart. */
  lemma CopyParts(v: FileVersion)
    requires IsDevice(v.author)
    ensures var name := Stem(v) + Mark() + v.author[..8] + "-" + FormatUtc(v.at) + Extension(v);
            ConflictPath(v) == Dir(v.path) + name && Dir(ConflictPath(v)) == Dir(v.path)
  {
    DecorationBeside(v, "conflict");
    assert ShortId(v.author) == v.author[..8];
    Marked(Stem(v));
    hide Dir, Stem, Extension, ShortId, FormatUtc, Base;
  }

  lemma Marked(stem: string)
    ensures stem + "." + "conflict" + "-" == stem + Mark()
  {
    var s := stem + "." + "conflict" + "-";
    assert s[..|stem|] == stem;
    assert s[|stem|..] == Mark();
  }

  /** The device and date a copy's name carries. */
  function Tag(v: FileVersion): string
    requires IsDevice(v.author)
  {
    v.author[..8] + "-" + FormatUtc(v.at)
  }

  /** The path a copy's name reads back to, if a name is made and it does. */
  function ReadBack(v: FileVersion): Option<ConflictName> {
    match Decorated(v, "conflict")
    case Some(path) => ConflictOrigin(path)
    case None => None
  }

  /** A conflict copy has a name, and it reads back as the path, device and date it was
      made of, exactly when the name copied begins with a character of one byte and its
      extension is not itself such a mark: the copy of a conflict copy that has no
      extension of its own reads as a copy of a file there never was, the one made by the
      same device at the same second excepted. */
  lemma CopyNameReadsBack(v: FileVersion)
    requires IsDevice(v.author) && 0 <= YearOf(v.at) <= 9999
    ensures ReadBack(v) == Some(ConflictName(v.path, v.author[..8], FormatUtc(v.at)))
      <==> CanDecorate(v.path) && (!(Mark() <= Extension(v)) || Extension(v) == Mark() + Tag(v))
  {
    if CanDecorate(v.path) { CopyReadsBack(v); }
    hide FormatUtc, ConflictOrigin, Mark;
  }

  lemma CopyReadsBack(v: FileVersion)
    requires IsDevice(v.author) && Base(v) != "" && 0 <= YearOf(v.at) <= 9999
    ensures ConflictOrigin(ConflictPath(v)) == Some(ConflictName(v.path, v.author[..8], FormatUtc(v.at)))
      <==> !(Mark() <= Extension(v)) || Extension(v) == Mark() + Tag(v)
  {
    var stem, device, when, ext := Stem(v), v.author[..8], FormatUtc(v.at), Extension(v);
    assert Tag(v) == device + "-" + when;
    hide *;
    VersionParts(v);
    CopyParts(v);
    StampText(v.at);
    PartsReadBack(Dir(v.path), stem, device, when, ext);
  }

  lemma PartsReadBack(dir: string, stem: string, device: string, when: string, ext: string)
    requires stem != "" && |device| == 8 && IsHex(device) && IsStamp(when) && IsExtension(ext)
    requires Dir(dir + (stem + Mark() + device + "-" + when + ext)) == dir
    ensures ConflictOrigin(dir + (stem + Mark() + device + "-" + when + ext))
         == Some(ConflictName(dir + (stem + ext), device, when))
      <==> !(Mark() <= ext) || ext == Mark() + (device + "-" + when)
  {
    hide *;
    ReadAtMark(dir, stem, device, when, ext);
    if Mark() <= ext {
      ReadsExtension(dir, stem, device, when, ext);
    } else {
      ReadsMark(dir, stem, device, when, ext);
    }
  }

  lemma VersionParts(v: FileVersion)
    requires IsDevice(v.author) && Base(v) != ""
    ensures v.path == Dir(v.path) + (Stem(v) + Extension(v)) && Stem(v) != "" && IsExtension(Extension(v))
    ensures |v.author[..8]| == 8 && IsHex(v.author[..8])
  {}

  lemma ReadAtMark(dir: string, stem: string, device: string, when: string, ext: string)
    requires IsHex(device) && IsStamp(when) && IsExtension(ext)
    requires Dir(dir + (stem + Mark() + device + "-" + when + ext)) == dir
    ensures var name := stem + Mark() + device + "-" + when + ext;
            var mark := if Mark() <= ext then |name| - |ext| else |stem|;
            mark + |Mark()| <= |name|
            && ConflictOrigin(dir + name) == ReadTag(dir, name[..mark], name[mark + |Mark()|..])
  {
    var name := stem + Mark() + device + "-" + when + ext;
    var mark := if Mark() <= ext then |name| - |ext| else |stem|;
    hide Mark, IsHex, IsStamp, IsExtension, Dir, LastAt, ReadTag;
    MarkIsLast(stem, device, when, ext);
    LastIs(name, Mark(), |name|, mark);
    assert mark + |Mark()| <= |name|;
    hide OccursAt;
    assert (dir + name)[|dir|..] == name;
  }

  lemma {:induction false} LastIs(s: string, pat: string, n: nat, i: nat)
    requires i < n && OccursAt(s, pat, i) && forall j | i < j < n :: !OccursAt(s, pat, j)
    ensures LastAt(s, pat, n) == Some(i)
  {
    if n - 1 > i { LastIs(s, pat, n - 1, i); }
  }

  /** The parts of a copy's name hold no dot but the mark's and the extension's. */
  lemma MarkIsLast(stem: string, device: string, when: string, ext: string)
    requires IsHex(device) && IsStamp(when) && IsExtension(ext)
    ensures var name := stem + Mark() + device + "-" + when + ext;
            var mark := if Mark() <= ext then |name| - |ext| else |stem|;
            mark < |name| && OccursAt(name, Mark(), mark) && forall j | mark < j < |name| :: !OccursAt(name, Mark(), j)
  {
    hide Mark;
    var name := stem + Mark() + device + "-" + when + ext;
    assert name[|stem|..|stem| + |Mark()|] == Mark();
    var e := |name| - |ext|;
    assert name[e..] == ext;
    assert Mark() <= ext ==> name[e..e + |Mark()|] == ext[..|Mark()|];
    forall j | |stem| < j < |name| ensures OccursAt(name, Mark(), j) ==> j == e && Mark() <= ext {
      if OccursAt(name, Mark(), j) {
        assert name[j] == name[j..j + |Mark()|][0] == '.';
        assert ext[..|Mark()|] == name[e..e + |Mark()|];
      }
    }
  }

  lemma ReadsMark(dir: string, stem: string, device: string, when: string, ext: string)
    requires stem != "" && |device| == 8 && IsHex(device) && IsStamp(when) && IsExtension(ext)
    ensures var name := stem + Mark() + device + "-" + when + ext;
            ReadTag(dir, name[..|stem|], name[|stem| + |Mark()|..])
                == Some(ConflictName(dir + (stem + ext), device, when))
  {
    hide Mark;
    var name := stem + Mark() + device + "-" + when + ext;
    var rest := name[|stem| + 10..];
    assert name[..|stem|] == stem;
    assert rest == device + "-" + when + ext;
    assert rest[..8] == device && rest[9..26] == when && rest[26..] == ext;
    hide IsHex, IsExtension;
  }

  lemma ReadsExtension(dir: string, stem: string, device: string, when: string, ext: string)
    requires stem != "" && |device| == 8 && IsHex(device) && IsStamp(when) && IsExtension(ext) && Mark() <= ext
    ensures var name := stem + Mark() + device + "-" + when + ext;
            var mark := |name| - |ext|;
            ReadTag(dir, name[..mark], name[mark + |Mark()|..]) == Some(ConflictName(dir + (stem + ext), device, when))
            <==> ext == Mark() + (device + "-" + when)
  {
    hide Mark;
    var name := stem + Mark() + device + "-" + when + ext;
    var mark, rest := |name| - |ext|, ext[10..];
    assert name[mark + 10..] == rest && name[..mark] == stem + Mark() + device + "-" + when;
    assert ext == Mark() + rest;
    assert '.' !in rest by { assert rest == ext[1..][9..]; }
    var tag := device + "-" + when;
    assert stem + Mark() + device + "-" + when == stem + (Mark() + tag);
    TagOnly(dir, stem + (Mark() + tag), rest, device, when);
    if ext == Mark() + tag {
      assert rest == tag;
    }
  }

  lemma TagOnly(dir: string, stem: string, rest: string, device: string, when: string)
    requires stem != "" && |device| == 8 && IsHex(device) && IsStamp(when) && '.' !in rest
    ensures rest == device + "-" + when ==> ReadTag(dir, stem, rest) == Some(ConflictName(dir + stem, device, when))
    ensures var read := ReadTag(dir, stem, rest);
            rest != device + "-" + when ==> (read.None? || read.value.device != device || read.value.when != when)
  {
    hide IsHex;
    if |rest| >= 26 {
      var ext := rest[26..];
      assert ext != "" ==> ext[0] == rest[26];
      assert ext == "" ==> rest == rest[..8] + [rest[8]] + rest[9..26];
    }
    if rest == device + "-" + when {
      assert rest[..8] == device && rest[9..26] == when && rest[26..] == "";
      assert stem + "" == stem;
    }
  }

  // ----- the mark in a name

  ghost predicate HasMark(s: string) { exists i :: OccursAt(s, Mark(), i) }

  lemma CopyHasMark(v: FileVersion)
    requires IsDevice(v.author)
    ensures HasMark(ConflictPath(v)[|Dir(v.path)|..])
  {
    CopyParts(v);
    var rest := v.author[..8] + "-" + FormatUtc(v.at) + Extension(v);
    var stem := Stem(v);
    hide Dir, Stem, Extension, FormatUtc, ConflictPath, Mark;
    var name := ConflictPath(v)[|Dir(v.path)|..];
    assert name == stem + Mark() + v.author[..8] + "-" + FormatUtc(v.at) + Extension(v);
    assert name[|stem|..|stem| + |Mark()|] == Mark();
    assert OccursAt(name, Mark(), |stem|);
  }
}
