/** components/birthday-field.tsx: the birthday picker with its age input.
    A local date is a calendar day (year, zero-based month, day of month);
    `new Date(y, m, d)` and `setFullYear` roll a day past the end of its
    month into the next month, which only matters for 29 February. */
module BirthdayField {
  import opened Common

  datatype CalendarDate = CalendarDate(year: int, month: int, day: int)

  predicate IsLeapYear(y: int) {
    y % 4 == 0 && (y % 100 != 0 || y % 400 == 0)
  }

  function DaysInMonth(y: int, m: int): (n: int)
    requires 0 <= m < 12
    ensures 28 <= n <= 31
    ensures m == 11 ==> n == 31
  {
    if m == 1 then (if IsLeapYear(y) then 29 else 28)
    else if m == 3 || m == 5 || m == 8 || m == 10 then 30
    else 31
  }

  predicate ValidDate(d: CalendarDate) {
    0 <= d.month < 12 && 1 <= d.day <= DaysInMonth(d.year, d.month)
  }

  /** A date a `Date` object can show. */
  type LocalDate = d: CalendarDate | ValidDate(d) witness CalendarDate(2000, 0, 1)

  /** `new Date(y, m, d)` for a day of month a valid date of some year can
      hold: a day past the end of the month moves into the next month. */
  function MakeDate(y: int, m: int, d: int): (r: LocalDate)
    requires 0 <= m < 12 && 1 <= d <= 31
    ensures r.year == y
    ensures d <= DaysInMonth(y, m) ==> r == CalendarDate(y, m, d)
  {
    if d <= DaysInMonth(y, m) then CalendarDate(y, m, d)
    else CalendarDate(y, m + 1, d - DaysInMonth(y, m))
  }

  /** `new Date(date).setFullYear(y)` */
  function SetFullYear(date: LocalDate, y: int): (r: LocalDate)
    ensures r.year == y
  {
    MakeDate(y, date.month, date.day)
  }

  /** Every date but 29 February keeps its month and day in any year. */
  lemma SetFullYearKeepsMonthDay(date: LocalDate, y: int)
    requires !(date.month == 1 && date.day == 29)
    ensures SetFullYear(date, y) == CalendarDate(y, date.month, date.day)
  {
  }

  /** 29 February moved to a common year becomes 1 March. */
  lemma LeapDayInCommonYear(date: LocalDate, y: int)
    requires date.month == 1 && date.day == 29 && !IsLeapYear(y)
    ensures SetFullYear(date, y) == CalendarDate(y, 2, 1)
  {
  }

  /** Local midnight of `a` is later than the instant `today` falls on
      exactly when the day `a` comes after the day of `today`. */
  predicate After(a: CalendarDate, today: CalendarDate) {
    a.year > today.year
    || (a.year == today.year && (a.month > today.month || (a.month == today.month && a.day > today.day)))
  }

  /** The birthday has not yet come round in `today`'s year. */
  predicate BeforeBirthday(born: CalendarDate, today: CalendarDate) {
    var monthDiff := today.month - born.month;
    monthDiff < 0 || (monthDiff == 0 && today.day < born.day)
  }

  /** `parseInt` of what a number input holds: an optional sign and the
      leading digits; `None` is `NaN`. */
  function ParseLeadingInt(s: string): (r: Option<int>)
    ensures r.None? <==> (|s| == 0 || (s[0] in "+-" && (|s| == 1 || !IsDigit(s[1]))) || (s[0] !in "+-" && !IsDigit(s[0])))
  {
    if |s| > 0 && s[0] == '-' then
      var n := LeadingDigits(s[1..]);
      if n.Some? then var negative := 0 - n.value as int; Some(negative) else None
    else if |s| > 0 && s[0] == '+' then LeadingDigits(s[1..])
    else LeadingDigits(s)
  }

  /** The value of the digits at the front of `s`, when there is one. */
  function LeadingDigits(s: string): (r: Option<nat>)
    ensures r.None? <==> |s| == 0 || !IsDigit(s[0])
  {
    var k := DigitRun(s);
    if k == 0 then None else Some(DigitsValue(s[..k]))
  }

  /** The length of the run of digits at the front of `s`. */
  function DigitRun(s: string): (k: nat)
    ensures k <= |s| && AllDigits(s[..k])
    ensures k < |s| ==> !IsDigit(s[k])
    ensures k == 0 <==> |s| == 0 || !IsDigit(s[0])
    decreases |s|
  {
    if |s| > 0 && IsDigit(s[0]) then
      var k := 1 + DigitRun(s[1..]);
      assert forall i :: 1 <= i < k ==> s[..k][i] == s[1..][..k - 1][i - 1];
      k
    else 0
  }

  /** A rendered natural number reads back as itself. */
  lemma ParseRendered(n: nat)
    ensures ParseLeadingInt(NatToString(n)) == Some(n)
  {
    var s := NatToString(n);
    var k := DigitRun(s);
    assert k == |s|;
    assert s[..k] == s;
    DigitsValueOfNatToString(n);
  }

  /** The year the loop of `calculateAge` stops at, starting from `y`: the
      latest year not after `y` in which day `d` of month `m` is not in the
      future. */
  function AdjustedYear(y: int, m: int, d: int, today: LocalDate): (r: int)
    requires 0 <= m < 12 && 1 <= d <= 31
    ensures r <= y
    ensures !After(MakeDate(r, m, d), today)
    ensures r == y || After(MakeDate(r + 1, m, d), today)
    ensures r >= y || r == today.year || r == today.year - 1
    decreases y - today.year
  {
    if After(MakeDate(y, m, d), today) then AdjustedYear(y - 1, m, d, today) else y
  }

  /** A birthday already in the past keeps its year. */
  lemma PastBirthdayKeepsYear(born: LocalDate, today: LocalDate)
    requires !After(born, today)
    ensures AdjustedYear(born.year, born.month, born.day, today) == born.year
  {
  }

  /** The whole years from `born` to `today`. */
  function AgeOn(born: LocalDate, today: LocalDate): int {
    today.year - born.year - (if BeforeBirthday(born, today) then 1 else 0)
  }

  /** Nobody is born in the future, so the age is never negative. */
  lemma AgeNotNegative(born: LocalDate, today: LocalDate)
    ensures !After(born, today) ==> AgeOn(born, today) >= 0
    ensures !After(born, today) && born.year == today.year ==> AgeOn(born, today) == 0
  {
  }

  class BirthdayFieldView {
    /** The `birthday` prop. */
    const birthday: Option<LocalDate>
    /** The arguments of the `onAgeChange` calls, in order. */
    var ageChanges: seq<Option<int>>
    /** The arguments of the `onBirthdayChange` calls, in order. */
    var birthdayChanges: seq<LocalDate>

    constructor(birthday: Option<LocalDate>)
      ensures this.birthday == birthday && ageChanges == [] && birthdayChanges == []
    {
      this.birthday := birthday;
      ageChanges := [];
      birthdayChanges := [];
    }

    /** `calculateAge`: a birthday in the future is moved back year by year to
        the latest year in which it is not, the age is counted from that date,
        and `onBirthdayChange` gets the moved date only when the year changed. */
    method CalculateAge(birthDate: LocalDate, today: LocalDate) returns (calculatedAge: int)
      modifies this
      ensures var birthYear := AdjustedYear(birthDate.year, birthDate.month, birthDate.day, today);
        calculatedAge == AgeOn(MakeDate(birthYear, birthDate.month, birthDate.day), today)
        && (birthYear == birthDate.year ==> birthdayChanges == old(birthdayChanges))
        && (birthYear != birthDate.year ==> birthdayChanges == old(birthdayChanges) + [SetFullYear(birthDate, birthYear)])
      ensures calculatedAge >= 0
      ensures ageChanges == old(ageChanges)
    {
      var birthYear := MoveBack(birthDate, today);
      var adjustedBirthDate := MakeDate(birthYear, birthDate.month, birthDate.day);
      calculatedAge := today.year - adjustedBirthDate.year;
      var monthDiff := today.month - adjustedBirthDate.month;
      if monthDiff < 0 || (monthDiff == 0 && today.day < adjustedBirthDate.day) {
        calculatedAge := calculatedAge - 1;
      }
      AgeNotNegative(adjustedBirthDate, today);
      if birthYear != birthDate.year {
        var newBirthday := SetFullYear(birthDate, birthYear);
        birthdayChanges := birthdayChanges + [newBirthday];
      }
    }

    /** The loop of `calculateAge` that moves a future birthday back a year at a time. */
    method MoveBack(birthDate: LocalDate, today: LocalDate) returns (birthYear: int)
      ensures birthYear == AdjustedYear(birthDate.year, birthDate.month, birthDate.day, today)
      ensures !After(MakeDate(birthYear, birthDate.month, birthDate.day), today)
    {
      birthYear := birthDate.year;
      var birthMonth := birthDate.month;
      var birthDay := birthDate.day;
      var adjustedBirthDate := MakeDate(birthYear, birthMonth, birthDay);
      while After(adjustedBirthDate, today)
        invariant birthYear <= birthDate.year
        invariant adjustedBirthDate == MakeDate(birthYear, birthMonth, birthDay)
        invariant AdjustedYear(birthYear, birthMonth, birthDay, today) == AdjustedYear(birthDate.year, birthMonth, birthDay, today)
        decreases birthYear - today.year
      {
        birthYear := birthYear - 1;
        adjustedBirthDate := MakeDate(birthYear, birthMonth, birthDay);
      }
    }

    /** `handleAgeChange`: an empty input reports `undefined`; a negative or
        unreadable one is ignored; a valid age is reported and, when there is
        a birthday, the birthday moves to today's year minus the age. */
    method HandleAgeChange(value: string, today: LocalDate)
      modifies this
      ensures value == "" ==> ageChanges == old(ageChanges) + [None] && birthdayChanges == old(birthdayChanges)
      ensures value != "" && (ParseLeadingInt(value).None? || ParseLeadingInt(value).value < 0) ==>
        ageChanges == old(ageChanges) && birthdayChanges == old(birthdayChanges)
      ensures value != "" && ParseLeadingInt(value).Some? && ParseLeadingInt(value).value >= 0 ==>
        var newAge := ParseLeadingInt(value).value;
        ageChanges == old(ageChanges) + [Some(newAge)]
        && (birthday.None? ==> birthdayChanges == old(birthdayChanges))
        && (birthday.Some? ==>
              birthdayChanges == old(birthdayChanges) + [SetFullYear(birthday.value, today.year - newAge)])
    {
      var newAge: Option<int> := if value != "" then ParseLeadingInt(value) else None;
      if value == "" {
        ageChanges := ageChanges + [None];
        return;
      }
      if newAge.Some? && newAge.value >= 0 {
        ageChanges := ageChanges + [newAge];
        if birthday.Some? {
          var birthYear := today.year - newAge.value;
          var newBirthday := SetFullYear(birthday.value, birthYear);
          birthdayChanges := birthdayChanges + [newBirthday];
        }
      }
    }
  }
}
