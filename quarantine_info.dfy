/**
 * A quarantine placed on a Discord account: its expiry, whether it is still in force,
 * and the remaining time as shown to staff and players.
 */
module Quarantine {
  import opened Wrappers
  import opened Text
  import Time
  import DurationParser

  /** One quarantine row; `expiresAt` is absent for a permanent quarantine. */
  datatype QuarantineInfo = QuarantineInfo(
    discordId: string,
    reason: string,
    expiresAt: Option<Time.Instant>,
    createdAt: Time.Instant,
    createdBy: string)

  /** `isActive`: permanent, or the expiry is still strictly in the future. */
  predicate IsActive(q: QuarantineInfo, now: Time.Instant): (active: bool)
    ensures q.expiresAt.None? ==> active
    ensures q.expiresAt.Some? ==> (active <==> now < q.expiresAt.value)
  {
    q.expiresAt.None? || now < q.expiresAt.value
  }

  /** `isPermanent`: no expiry, so active at every instant. */
  predicate IsPermanent(q: QuarantineInfo): (permanent: bool)
    ensures permanent <==> q.expiresAt.None?
    ensures permanent ==> forall t :: IsActive(q, t)
    ensures q.expiresAt.Some? ==> !permanent && !IsActive(q, q.expiresAt.value)
  {
    q.expiresAt.None?
  }

  /** Expiry is final: a timed quarantine inactive at some instant stays inactive at every later one. */
  lemma ExpiryIsFinal(q: QuarantineInfo, now: Time.Instant, later: Time.Instant)
    requires !IsActive(q, now) && now <= later
    ensures !IsActive(q, later) && !IsPermanent(q)
  {
  }

  /**
   * `getRemainingSeconds`: -1 for a permanent quarantine; otherwise the difference of the
   * epoch seconds of expiry and now, never below zero.
   */
  function RemainingSeconds(q: QuarantineInfo, now: Time.Instant): (r: int)
    ensures r == -1 <==> IsPermanent(q)
    ensures !IsPermanent(q) ==> r >= 0
    ensures !IsPermanent(q) ==> (r == 0 <==> Time.EpochSecond(q.expiresAt.value) <= Time.EpochSecond(now))
    ensures r > 0 ==> Time.EpochSecond(now) + r == Time.EpochSecond(q.expiresAt.value)
  {
    if IsPermanent(q) then
      -1
    else
      var remaining := Time.EpochSecond(q.expiresAt.value) - Time.EpochSecond(now);
      if remaining < 0 then 0 else remaining
  }

  /** The words of the remaining time: "Nd Nh Nm", "Nh Nm", "Nm Ns" or "Ns", zeros included. */
  function ClockTokens(seconds: nat): seq<string> {
    ClockWords(seconds / 86400, (seconds % 86400) / 3600, (seconds % 3600) / 60, seconds % 60)
  }

  /** The format chosen by the largest non-zero component among days, hours and minutes. */
  function ClockWords(days: nat, hours: nat, minutes: nat, secs: nat): seq<string> {
    if days > 0 then
      [DurationParser.Token(days, 'd'), DurationParser.Token(hours, 'h'), DurationParser.Token(minutes, 'm')]
    else if hours > 0 then
      [DurationParser.Token(hours, 'h'), DurationParser.Token(minutes, 'm')]
    else if minutes > 0 then
      [DurationParser.Token(minutes, 'm'), DurationParser.Token(secs, 's')]
    else
      [DurationParser.Token(secs, 's')]
  }

  /** The remaining-time text starts with a digit, so it is never one of the two fixed words. */
  lemma ClockTextStartsWithDigit(seconds: nat)
    ensures DurationParser.Join(ClockTokens(seconds)) != []
    ensures IsDigit(DurationParser.Join(ClockTokens(seconds))[0])
  {
    DurationParser.JoinEnds(ClockTokens(seconds));
  }

  /**
   * `getFormattedTimeRemaining`: "Permanent", "Expired" once no whole second remains,
   * otherwise the clock text.
   */
  function FormattedTimeRemaining(q: QuarantineInfo, now: Time.Instant): (r: string)
    ensures r == "Permanent" <==> IsPermanent(q)
    ensures r == "Expired" <==> !IsPermanent(q) && RemainingSeconds(q, now) == 0
  {
    if IsPermanent(q) then
      "Permanent"
    else
      var seconds := RemainingSeconds(q, now);
      if seconds <= 0 then
        "Expired"
      else
        ClockTextStartsWithDigit(seconds);
        DurationParser.Join(ClockTokens(seconds))
  }

  /** A quarantine that is no longer active always shows as "Expired". */
  lemma InactiveShowsExpired(q: QuarantineInfo, now: Time.Instant)
    requires !IsActive(q, now)
    ensures FormattedTimeRemaining(q, now) == "Expired"
    ensures RemainingSeconds(q, now) == 0
  {
  }

  /**
   * The converse does not hold: during the last fraction of a second before expiry the
   * quarantine is still active while the whole-second difference is already zero.
   */
  lemma ActiveCanShowExpired()
    ensures var q := QuarantineInfo("1", "spam", Some(1500), 0, "2");
      IsActive(q, 1001) && FormattedTimeRemaining(q, 1001) == "Expired"
  {
  }

  /** Remaining time never grows as the clock advances. */
  lemma RemainingNeverGrows(q: QuarantineInfo, earlier: Time.Instant, later: Time.Instant)
    requires earlier <= later
    ensures RemainingSeconds(q, later) <= RemainingSeconds(q, earlier)
    ensures IsActive(q, later) ==> IsActive(q, earlier)
  {
  }

  /** A quarantine issued with an expiry from the duration parser has exactly the parsed seconds left. */
  lemma RemainingAtIssue(duration: Option<string>, q: QuarantineInfo, now: Time.Instant)
    requires q.expiresAt == DurationParser.ParseDurationToExpiry(duration, now)
    requires DurationParser.IsValidDuration(duration)
    ensures IsActive(q, now)
    ensures RemainingSeconds(q, now) == DurationParser.ParseDurationToSeconds(duration)
  {
  }

  lemma ParsedPair(a: string, b: string)
    ensures DurationParser.ParsedTotal([a, b]) ==
      DurationParser.ParseDurationToSeconds(Some(a)) + DurationParser.ParseDurationToSeconds(Some(b))
  {
    assert [a, b][..1] == [a];
    assert [a][..0] == [];
    assert DurationParser.ParsedTotal([a]) == DurationParser.ParseDurationToSeconds(Some(a));
  }

  lemma ParsedTriple(a: string, b: string, c: string)
    ensures DurationParser.ParsedTotal([a, b, c]) == DurationParser.ParseDurationToSeconds(Some(a)) +
      DurationParser.ParseDurationToSeconds(Some(b)) + DurationParser.ParseDurationToSeconds(Some(c))
  {
    assert [a, b, c][..2] == [a, b];
    ParsedPair(a, b);
  }

  /** The four clock components add back up to the remaining seconds. */
  lemma ClockParts(seconds: nat)
    ensures (seconds / 86400) * 86400 + ((seconds % 86400) / 3600) * 3600 + ((seconds % 3600) / 60) * 60 + seconds % 60 == seconds
  {
    var d, r := seconds / 86400, seconds % 86400;
    var h, q := r / 3600, r % 3600;
    var m, s := q / 60, q % 60;
    assert seconds == 3600 * (24 * d + h) + q && 0 <= q < 3600;
    assert seconds % 3600 == q by {
      var diff := 24 * d + h - seconds / 3600;
      assert 3600 * diff == seconds % 3600 - q;
    }
    assert seconds == 60 * (1440 * d + 60 * h + m) + s && 0 <= s < 60;
    assert seconds % 60 == s by {
      var diff := 1440 * d + 60 * h + m - seconds / 60;
      assert 60 * diff == seconds % 60 - s;
    }
  }

  /** Parsing the words back gives the components they show, seconds dropped once hours are shown. */
  lemma ClockWordsParseBack(days: nat, hours: nat, minutes: nat, secs: nat)
    ensures DurationParser.ParsedTotal(ClockWords(days, hours, minutes, secs)) ==
      if days > 0 then days * 86400 + hours * 3600 + minutes * 60
      else if hours > 0 then hours * 3600 + minutes * 60
      else minutes * 60 + secs
  {
    var d, h, m, s := DurationParser.Token(days, 'd'), DurationParser.Token(hours, 'h'),
      DurationParser.Token(minutes, 'm'), DurationParser.Token(secs, 's');
    if days > 0 {
      assert DurationParser.ParsedTotal([d, h, m]) == days * 86400 + hours * 3600 + minutes * 60 by {
        DurationParser.ParsePrinted(days, 'd');
        DurationParser.ParsePrinted(hours, 'h');
        DurationParser.ParsePrinted(minutes, 'm');
        ParsedTriple(d, h, m);
      }
    } else if hours > 0 {
      assert DurationParser.ParsedTotal([h, m]) == hours * 3600 + minutes * 60 by {
        DurationParser.ParsePrinted(hours, 'h');
        DurationParser.ParsePrinted(minutes, 'm');
        ParsedPair(h, m);
      }
    } else if minutes > 0 {
      assert DurationParser.ParsedTotal([m, s]) == minutes * 60 + secs by {
        DurationParser.ParsePrinted(minutes, 'm');
        DurationParser.ParsePrinted(secs, 's');
        ParsedPair(m, s);
      }
    } else {
      assert DurationParser.ParsedTotal([s]) == secs by {
        DurationParser.ParsePrinted(secs, 's');
        assert [s][..0] == [];
      }
    }
  }

  /**
   * Reading the clock text back with the duration parser, word by word, gives the remaining
   * seconds: exactly below one hour, rounded down to the whole minute from one hour on.
   */
  lemma ClockTextParsesBack(seconds: nat)
    ensures DurationParser.ParsedTotal(ClockTokens(seconds)) ==
      (if seconds >= 3600 then seconds - seconds % 60 else seconds)
  {
    var days, hours, minutes, secs := seconds / 86400, (seconds % 86400) / 3600, (seconds % 3600) / 60, seconds % 60;
    ClockWordsParseBack(days, hours, minutes, secs);
    ClockParts(seconds);
    if days == 0 && hours == 0 {
      assert seconds % 86400 == seconds;
      assert seconds < 3600;
    } else if days == 0 {
      assert seconds >= 3600;
    }
  }
}
