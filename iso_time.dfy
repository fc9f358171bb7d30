/** The text `Date.prototype.toISOString` produces for a UTC clock reading in the years
    0 to 9999 ("YYYY-MM-DDTHH:mm:ss.sssZ"), and a parser that reads it back. */
module IsoTime {
  import opened Wrappers
  import opened Decimal

  /** A UTC clock reading, in the fields `toISOString` prints. */
  datatype Reading = Reading(year: nat, month: nat, day: nat,
                             hour: nat, minute: nat, second: nat, millis: nat)

  /** The ranges the fields of a reading of the four-digit-year era take. */
  predicate InRange(t: Reading) {
    && t.year < 10000 && 1 <= t.month <= 12 && 1 <= t.day <= 31
    && t.hour < 24 && t.minute < 60 && t.second < 60 && t.millis < 1000
  }

  /** A clock reading of the years 0 to 9999. */
  type DateTime = t: Reading | InRange(t) witness Reading(1970, 1, 1, 0, 0, 0, 0)

  function ToIsoString(t: DateTime): (s: string)
    ensures |s| == 24
    ensures s[4] == '-' && s[7] == '-' && s[10] == 'T' && s[13] == ':' && s[16] == ':'
    ensures s[19] == '.' && s[23] == 'Z'
    ensures '/' !in s
  {
    assert Pow10(2) == 100 && Pow10(3) == 1000 && Pow10(4) == 10000;
    Padded(t.year, 4) + ("-" + (Padded(t.month, 2) + ("-" + (Padded(t.day, 2) + ("T" + TimeOfDay(t))))))
  }

  /** The "HH:mm:ss.sssZ" part of a timestamp. */
  function TimeOfDay(t: DateTime): (s: string)
    ensures |s| == 13
    ensures '/' !in s
  {
    assert Pow10(2) == 100 && Pow10(3) == 1000;
    Padded(t.hour, 2) + (":" + (Padded(t.minute, 2) + (":" + (Padded(t.second, 2)
    + ("." + (Padded(t.millis, 3) + "Z"))))))
  }

  /** Reads `width` digits off the front of `s`. */
  function TakeNumber(s: string, width: nat): (r: Option<(nat, string)>)
    ensures r.Some? ==> width <= |s| && r.value.1 == s[width..]
  {
    if |s| >= width && AllDigits(s[..width]) then Some((Value(s[..width]), s[width..])) else None
  }

  /** Reads the character `c` off the front of `s`. */
  function TakeChar(s: string, c: char): (r: Option<string>)
    ensures r.Some? <==> s != [] && s[0] == c
  {
    if s != [] && s[0] == c then Some(s[1..]) else None
  }

  /** The inverse of `ToIsoString`. */
  function ParseIso(s: string): Option<Reading> {
    var year :- TakeNumber(s, 4);
    var s1 :- TakeChar(year.1, '-');
    var month :- TakeNumber(s1, 2);
    var s2 :- TakeChar(month.1, '-');
    var day :- TakeNumber(s2, 2);
    var s3 :- TakeChar(day.1, 'T');
    var time :- ParseTimeOfDay(s3);
    Some(Reading(year.0, month.0, day.0, time.0, time.1, time.2, time.3))
  }

  /** Reads "HH:mm:ss.sssZ", the part after the 'T'. */
  function ParseTimeOfDay(s: string): Option<(nat, nat, nat, nat)> {
    var hour :- TakeNumber(s, 2);
    var s1 :- TakeChar(hour.1, ':');
    var minute :- TakeNumber(s1, 2);
    var s2 :- TakeChar(minute.1, ':');
    var second :- TakeNumber(s2, 2);
    var s3 :- TakeChar(second.1, '.');
    var millis :- TakeNumber(s3, 3);
    if millis.1 == "Z" then Some((hour.0, minute.0, second.0, millis.0)) else None
  }

  lemma {:induction false} TakePadded(n: nat, width: nat, rest: string)
    requires n < Pow10(width)
    ensures TakeNumber(Padded(n, width) + rest, width) == Some((n, rest))
  {
    var s := Padded(n, width) + rest;
    assert s[..width] == Padded(n, width);
    assert s[width..] == rest;
  }

  lemma {:induction false} ParseTimeOfDayOf(t: DateTime)
    ensures ParseTimeOfDay(TimeOfDay(t)) == Some((t.hour, t.minute, t.second, t.millis))
  {
    assert Pow10(2) == 100 && Pow10(3) == 1000;
    var r3 := "Z";
    var q3 := Padded(t.millis, 3) + r3;
    var r2 := "." + q3;
    var q2 := Padded(t.second, 2) + r2;
    var r1 := ":" + q2;
    var q1 := Padded(t.minute, 2) + r1;
    var r0 := ":" + q1;
    assert Padded(t.hour, 2) + r0 == TimeOfDay(t);
    TakePadded(t.hour, 2, r0);
    assert TakeChar(r0, ':') == Some(q1);
    TakePadded(t.minute, 2, r1);
    assert TakeChar(r1, ':') == Some(q2);
    TakePadded(t.second, 2, r2);
    assert TakeChar(r2, '.') == Some(q3);
    TakePadded(t.millis, 3, r3);
  }

  /** Reading a timestamp back gives the clock reading it was printed from. */
  lemma {:induction false} ParseIsoOfToIso(t: DateTime)
    ensures ParseIso(ToIsoString(t)) == Some(t)
  {
    assert Pow10(2) == 100 && Pow10(4) == 10000;
    var time := TimeOfDay(t);
    ParseTimeOfDayOf(t);
    var r2 := "T" + time;
    var q2 := Padded(t.day, 2) + r2;
    var r1 := "-" + q2;
    var q1 := Padded(t.month, 2) + r1;
    var r0 := "-" + q1;
    assert Padded(t.year, 4) + r0 == ToIsoString(t);
    TakePadded(t.year, 4, r0);
    assert TakeChar(r0, '-') == Some(q1);
    TakePadded(t.month, 2, r1);
    assert TakeChar(r1, '-') == Some(q2);
    TakePadded(t.day, 2, r2);
    assert TakeChar(r2, 'T') == Some(time);
  }

  /** Two clock readings print the same timestamp only if they are the same reading. */
  lemma {:induction false} ToIsoStringInjective(t1: DateTime, t2: DateTime)
    ensures ToIsoString(t1) == ToIsoString(t2) <==> t1 == t2
  {
    ParseIsoOfToIso(t1);
    ParseIsoOfToIso(t2);
  }
}
