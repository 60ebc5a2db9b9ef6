/**
 * Parsing of moderation durations such as "30m", "2h" or "7d" and their
 * human-readable rendering ("1w 2d 3h").
 */
module DurationParser {
  import opened Wrappers
  import opened Text
  import Time

  const SecondsPerWeek: int := 604800

  /** The unit letters the pattern `^(\d+)([smhdw])$` accepts. */
  predicate IsUnit(u: char) {
    u == 's' || u == 'm' || u == 'h' || u == 'd' || u == 'w'
  }

  /** How many seconds one of each unit stands for. */
  function UnitSeconds(u: char): (k: int)
    requires IsUnit(u)
    ensures k > 0
  {
    match u
    case 's' => 1
    case 'm' => 60
    case 'h' => 3600
    case 'd' => 86400
    case 'w' => SecondsPerWeek
  }

  /** What the pattern is matched against: the trimmed, lower-cased input. */
  function Normalize(s: string): string {
    ToLower(Trim(s))
  }

  /** `^(\d+)([smhdw])$` matched against the whole string: one or more ASCII digits, then a unit. */
  predicate MatchesPattern(t: string) {
    |t| >= 2 && AllDigits(t[..|t| - 1]) && IsUnit(t[|t| - 1])
  }

  /** The number in front of the unit of a matching string. */
  function Amount(t: string): nat
    requires MatchesPattern(t)
  {
    DigitsValue(t[..|t| - 1])
  }

  /**
   * `parseDurationToSeconds`: the number of seconds, or -1 for a missing, blank or
   * non-matching input. It is -1 exactly when the normalized input does not match.
   */
  function ParseDurationToSeconds(duration: Option<string>): (r: int)
    ensures r >= -1
    ensures r == -1 <==> !(duration.Some? && MatchesPattern(Normalize(duration.value)))
  {
    if duration.None? || Trim(duration.value) == [] then
      -1
    else
      var t := Normalize(duration.value);
      if !MatchesPattern(t) then -1 else Amount(t) * UnitSeconds(t[|t| - 1])
  }

  /** A number printed in decimal followed by a unit letter parses back to number × unit. */
  lemma ParsePrinted(n: nat, u: char)
    requires IsUnit(u)
    ensures ParseDurationToSeconds(Some(Token(n, u))) == n * UnitSeconds(u)
  {
    var t := Token(n, u);
    TrimOfTrimmed(t);
    assert ToLower(t) == t;
    assert t[..|t| - 1] == NatToString(n);
    DigitsOfNatToString(n);
  }

  /**
   * Trimmable padding on either side and upper-case letters do not change the result: a padded
   * input parses like the bare one, and any input parses like its lower-case form.
   */
  lemma ParseIgnoresPaddingAndCase(before: string, s: string, after: string)
    requires forall i :: 0 <= i < |before| ==> IsTrimmable(before[i])
    requires forall i :: 0 <= i < |after| ==> IsTrimmable(after[i])
    ensures ParseDurationToSeconds(Some(before + s + after)) == ParseDurationToSeconds(Some(s))
    ensures ParseDurationToSeconds(Some(ToLower(s))) == ParseDurationToSeconds(Some(s))
  {
    TrimPadded(before, s, after);
    TrimOfLower(s);
    ToLowerIdempotent(Trim(s));
    assert Normalize(ToLower(s)) == Normalize(s);
    assert Trim(ToLower(s)) == [] <==> Trim(s) == [];
  }

  /** Tabs and line breaks around the token are trimmed as well. */
  lemma ParseTrimsControlChars()
    ensures ParseDurationToSeconds(Some("\t15m\n")) == 900
  {
    assert TrimLeft("\t15m\n") == "15m\n";
    assert TrimRight("15m\n") == "15m";
    assert Trim("\t15m\n") == "15m";
    assert ToLower("15m") == "15m";
    var n := Normalize("\t15m\n");
    assert n == "15m";
    assert n[..2] == "15";
    assert "15"[..1] == "1";
    assert "1"[..0] == [];
    assert DigitsValue("1") == 1;
    assert DigitsValue("15") == 15;
    assert Amount(n) == 15;
  }

  /** A compound duration is not accepted. */
  lemma ParseRejectsCompound()
    ensures ParseDurationToSeconds(Some("1h30m")) == -1
  {
    assert TrimLeft("1h30m") == "1h30m";
    assert TrimRight("1h30m") == "1h30m";
    assert ToLower("1h30m")[1] == 'h';
  }

  /** A sign in front of the number is not accepted. */
  lemma ParseRejectsSign()
    ensures ParseDurationToSeconds(Some("-5m")) == -1
  {
    assert TrimLeft("-5m") == "-5m";
    assert TrimRight("-5m") == "-5m";
    assert ToLower("-5m")[0] == '-';
  }

  /** A missing input, and any input whose trimmed form is shorter than two chars (blank, or a bare unit), give -1. */
  lemma ParseRejectsEmpty(s: string)
    requires |Trim(s)| < 2
    ensures ParseDurationToSeconds(Some(s)) == -1
    ensures ParseDurationToSeconds(None) == -1
  {
    assert |Normalize(s)| == |Trim(s)|;
  }

  /** A non-digit anywhere before the last char of the normalized input (a sign, a second unit) gives -1. */
  lemma {:induction false} ParseRejectsNonDigitBeforeUnit(s: string, i: nat)
    requires i + 1 < |Normalize(s)| && !IsDigit(Normalize(s)[i])
    ensures ParseDurationToSeconds(Some(s)) == -1
  {
    var t := Normalize(s);
    assert t[..|t| - 1][i] == t[i];
  }

  /** `isValidDuration`: the parse gives a positive number of seconds. */
  function IsValidDuration(duration: Option<string>): (b: bool)
    ensures b <==> duration.Some? && MatchesPattern(Normalize(duration.value)) && Amount(Normalize(duration.value)) > 0
  {
    ParseDurationToSeconds(duration) > 0
  }

  /** A printed amount with a unit is a valid duration exactly when the amount is positive, so "0m" is not. */
  lemma PrintedValidIffPositive(n: nat, u: char)
    requires IsUnit(u)
    ensures IsValidDuration(Some(Token(n, u))) <==> n > 0
  {
    ParsePrinted(n, u);
  }

  /** `parseDurationToExpiry`: `now` plus the parsed seconds, or none when they are not positive. */
  function ParseDurationToExpiry(duration: Option<string>, now: Time.Instant): (r: Option<Time.Instant>)
    ensures r.None? <==> !IsValidDuration(duration)
    ensures r.Some? ==> r.value > now && Time.EpochSecond(r.value) - Time.EpochSecond(now) == ParseDurationToSeconds(duration)
  {
    var seconds := ParseDurationToSeconds(duration);
    if seconds <= 0 then None else Some(Time.PlusSeconds(now, seconds))
  }

  /** One non-zero component of a formatted duration, e.g. "3h". */
  function Token(n: nat, u: char): string {
    NatToString(n) + [u]
  }

  /** A duration split into weeks, days, hours, minutes and seconds. */
  datatype Breakdown = Breakdown(weeks: nat, days: nat, hours: nat, minutes: nat, seconds: nat)

  function BreakdownOf(n: nat): Breakdown {
    var days := n % SecondsPerWeek;
    var hours := days % 86400;
    var minutes := hours % 3600;
    Breakdown(n / SecondsPerWeek, days / 86400, hours / 3600, minutes / 60, minutes % 60)
  }

  function Total(b: Breakdown): int {
    b.weeks * SecondsPerWeek + b.days * 86400 + b.hours * 3600 + b.minutes * 60 + b.seconds
  }

  /** The breakdown adds back up to the duration and every unit below weeks stays under its carry. */
  lemma BreakdownRecomposes(n: nat)
    ensures Total(BreakdownOf(n)) == n
    ensures BreakdownOf(n).days < 7 && BreakdownOf(n).hours < 24
    ensures BreakdownOf(n).minutes < 60 && BreakdownOf(n).seconds < 60
  {
  }

  /** The token for a component, if it is non-zero. */
  function Piece(n: nat, u: char): seq<string> {
    if n > 0 then [Token(n, u)] else []
  }

  /** The non-zero components, coarsest first. */
  function Tokens(b: Breakdown): seq<string> {
    Piece(b.weeks, 'w') + Piece(b.days, 'd') + Piece(b.hours, 'h') + Piece(b.minutes, 'm') + Piece(b.seconds, 's')
  }

  /** Strings separated by single spaces. */
  function Join(ts: seq<string>): string {
    if |ts| == 0 then "" else if |ts| == 1 then ts[0] else Join(ts[..|ts| - 1]) + " " + ts[|ts| - 1]
  }

  /** Every string followed by a space, as a StringBuilder receives "Nw " and the like. */
  function Spaced(ts: seq<string>): string {
    if ts == [] then "" else Spaced(ts[..|ts| - 1]) + ts[|ts| - 1] + " "
  }

  lemma {:induction false} SpacedIsJoinPlusSpace(ts: seq<string>)
    requires ts != []
    ensures Spaced(ts) == Join(ts) + " "
  {
    if |ts| > 1 {
      SpacedIsJoinPlusSpace(ts[..|ts| - 1]);
    }
  }

  lemma SpacedPiece(ts: seq<string>, n: nat, u: char)
    ensures n > 0 ==> Spaced(ts + Piece(n, u)) == Spaced(ts) + NatToString(n) + ([u] + " ")
    ensures n == 0 ==> Spaced(ts + Piece(n, u)) == Spaced(ts)
  {
    if n > 0 {
      assert (ts + Piece(n, u))[..|ts|] == ts;
    } else {
      assert ts + Piece(n, u) == ts;
    }
  }

  lemma SpacedThenLast(ts: seq<string>, x: string)
    ensures Spaced(ts) + x == Join(ts + [x])
  {
    assert (ts + [x])[..|ts|] == ts;
    if ts != [] {
      SpacedIsJoinPlusSpace(ts);
    }
  }

  /** The joined tokens start with the first token's first char and end with the last token's last char. */
  lemma {:induction false} JoinEnds(ts: seq<string>)
    requires ts != [] && forall i :: 0 <= i < |ts| ==> ts[i] != []
    ensures Join(ts) != []
    ensures Join(ts)[0] == ts[0][0]
    ensures Join(ts)[|Join(ts)| - 1] == ts[|ts| - 1][|ts[|ts| - 1]| - 1]
  {
    if |ts| > 1 {
      JoinEnds(ts[..|ts| - 1]);
    }
  }

  /** Every token starts with a digit and ends with a unit letter. */
  lemma TokensShape(b: Breakdown)
    ensures forall i :: 0 <= i < |Tokens(b)| ==> |Tokens(b)[i]| >= 2 && IsDigit(Tokens(b)[i][0])
    ensures forall i :: 0 <= i < |Tokens(b)| ==> IsUnit(Tokens(b)[i][|Tokens(b)[i]| - 1])
  {
  }

  /** One `append(n).append("u ")` step of the builder, taken only for a non-zero component. */
  lemma AppendComponent(sb: string, toks: seq<string>, n: nat, u: char)
    requires sb == Spaced(toks)
    ensures (if n > 0 then sb + NatToString(n) + [u, ' '] else sb) == Spaced(toks + Piece(n, u))
  {
    SpacedPiece(toks, n, u);
  }

  /** The last append (seconds, without a trailing space) and the final `trim()`. */
  lemma FinishComponents(sb: string, toks: seq<string>, rest: nat, b: Breakdown)
    requires sb == Spaced(toks) && toks + Piece(rest, 's') == Tokens(b) && Total(b) > 0
    ensures Trim(if rest > 0 then sb + NatToString(rest) + "s" else sb) == Join(Tokens(b))
  {
    if rest > 0 {
      var last := sb + NatToString(rest) + "s";
      assert last == Join(Tokens(b)) by {
        assert last == sb + Token(rest, 's');
        SpacedThenLast(toks, Token(rest, 's'));
      }
      FormatShape(b);
      TrimOfTrimmed(last);
    } else {
      assert toks == Tokens(b) by {
        assert Piece(rest, 's') == [];
      }
      FormatShape(b);
      SpacedIsJoinPlusSpace(toks);
      TrimDropsTrailingSpace(Join(toks));
    }
  }

  /** For a positive duration the joined tokens are non-empty and start and end with a non-space char. */
  lemma FormatShape(b: Breakdown)
    requires Total(b) > 0
    ensures Tokens(b) != []
    ensures !IsTrimmable(Join(Tokens(b))[0]) && !IsTrimmable(Join(Tokens(b))[|Join(Tokens(b))| - 1])
  {
    TokensShape(b);
    JoinEnds(Tokens(b));
  }

  /**
   * `formatDuration`: "0s" for a non-positive count; otherwise the non-zero components
   * from weeks down to seconds, separated by single spaces.
   */
  method FormatDuration(seconds: int) returns (s: string)
    ensures seconds <= 0 ==> s == "0s"
    ensures seconds > 0 ==> s == Join(Tokens(BreakdownOf(seconds)))
  {
    if seconds <= 0 {
      return "0s";
    }
    var rest := seconds;
    var weeks := rest / SecondsPerWeek;
    rest := rest % SecondsPerWeek;
    var days := rest / 86400;
    rest := rest % 86400;
    var hours := rest / 3600;
    rest := rest % 3600;
    var minutes := rest / 60;
    rest := rest % 60;
    ghost var b := Breakdown(weeks, days, hours, minutes, rest);
    assert b == BreakdownOf(seconds);

    var sb := "";
    ghost var toks: seq<string> := [];
    AppendComponent(sb, toks, weeks, 'w');
    if weeks > 0 { sb := sb + NatToString(weeks) + "w "; }
    toks := toks + Piece(weeks, 'w');
    AppendComponent(sb, toks, days, 'd');
    if days > 0 { sb := sb + NatToString(days) + "d "; }
    toks := toks + Piece(days, 'd');
    AppendComponent(sb, toks, hours, 'h');
    if hours > 0 { sb := sb + NatToString(hours) + "h "; }
    toks := toks + Piece(hours, 'h');
    AppendComponent(sb, toks, minutes, 'm');
    if minutes > 0 { sb := sb + NatToString(minutes) + "m "; }
    toks := toks + Piece(minutes, 'm');
    assert toks + Piece(rest, 's') == Tokens(b);
    FinishComponents(sb, toks, rest, b);
    if rest > 0 { sb := sb + NatToString(rest) + "s"; }
    s := Trim(sb);
  }

  /** Sum of what each token parses to. */
  function ParsedTotal(ts: seq<string>): int {
    if ts == [] then 0 else ParsedTotal(ts[..|ts| - 1]) + ParseDurationToSeconds(Some(ts[|ts| - 1]))
  }

  lemma {:induction false} ParsedTotalAppend(a: seq<string>, b: seq<string>)
    ensures ParsedTotal(a + b) == ParsedTotal(a) + ParsedTotal(b)
  {
    if b != [] {
      assert (a + b)[..|a + b| - 1] == a + b[..|b| - 1];
      ParsedTotalAppend(a, b[..|b| - 1]);
    } else {
      assert a + b == a;
    }
  }

  lemma ParsedPiece(n: nat, u: char)
    requires IsUnit(u)
    ensures ParsedTotal(Piece(n, u)) == n * UnitSeconds(u)
  {
    if n > 0 {
      ParsePrinted(n, u);
      assert Piece(n, u)[..0] == [];
    }
  }

  lemma ParsedFive(p1: seq<string>, p2: seq<string>, p3: seq<string>, p4: seq<string>, p5: seq<string>, v1: int, v2: int, v3: int, v4: int, v5: int)
    requires ParsedTotal(p1) == v1 && ParsedTotal(p2) == v2 && ParsedTotal(p3) == v3
    requires ParsedTotal(p4) == v4 && ParsedTotal(p5) == v5
    ensures ParsedTotal(p1 + p2 + p3 + p4 + p5) == v1 + v2 + v3 + v4 + v5
  {
    ParsedTotalAppend(p1, p2);
    ParsedTotalAppend(p1 + p2, p3);
    ParsedTotalAppend(p1 + p2 + p3, p4);
    ParsedTotalAppend(p1 + p2 + p3 + p4, p5);
  }

  /** The five pieces, whatever their amounts, parse back to the weighted sum of the amounts. */
  lemma ParsedPieces(b: Breakdown)
    ensures ParsedTotal(Tokens(b)) == Total(b)
  {
    assert UnitSeconds('w') == SecondsPerWeek && UnitSeconds('d') == 86400 && UnitSeconds('h') == 3600;
    assert UnitSeconds('m') == 60 && UnitSeconds('s') == 1;
    ParsedPiece(b.weeks, 'w');
    ParsedPiece(b.days, 'd');
    ParsedPiece(b.hours, 'h');
    ParsedPiece(b.minutes, 'm');
    ParsedPiece(b.seconds, 's');
    ParsedFive(Piece(b.weeks, 'w'), Piece(b.days, 'd'), Piece(b.hours, 'h'), Piece(b.minutes, 'm'), Piece(b.seconds, 's'),
      b.weeks * SecondsPerWeek, b.days * 86400, b.hours * 3600, b.minutes * 60, b.seconds);
  }

  /** Round trip: parsing each component of the formatted text and adding up gives the duration back. */
  lemma FormatParsesBack(n: nat)
    requires n > 0
    ensures ParsedTotal(Tokens(BreakdownOf(n))) == n
  {
    ParsedPieces(BreakdownOf(n));
    BreakdownRecomposes(n);
  }
}
