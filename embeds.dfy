/** The pure helpers of the Discord embed modules `src/discord/embeds.py`
    and `discord_bot/embeds.py`, whose `format_time` and title truncation are
    identical and are modelled once here: the uptime text of an embed footer
    and the 256-character cap on an embed title. */
module Embeds {
  import opened Common
  import opened Decimal

  /** A duration as hours, minutes and seconds. */
  datatype Clock = Clock(hours: int, minutes: int, seconds: int)

  /** Both `divmod(_, 60)` steps of `format_time`. Python's `divmod` floors;
      for the positive divisor 60 that is Dafny's `/` and `%`, so minutes and
      seconds stay in [0, 60) even for a negative duration. */
  function Split(total: int): (c: Clock)
    ensures 0 <= c.minutes < 60 && 0 <= c.seconds < 60
    ensures c.hours * 3600 + c.minutes * 60 + c.seconds == total
  {
    var m := total / 60;
    assert total == m * 60 + total % 60;
    assert m == (m / 60) * 60 + m % 60;
    Clock(m / 60, m % 60, total % 60)
  }

  lemma DivModUnique(q: int, r: int, d: int)
    requires 0 <= r < d
    ensures (q * d + r) / d == q && (q * d + r) % d == r
  {
    var x := q * d + r;
    var q', r' := x / d, x % d;
    assert x == q' * d + r';
    assert (q - q') * d == r' - r;
    if q - q' >= 1 {
      assert false;
    } else if q - q' <= -1 {
      assert false;
    }
  }

  /** The floored split is the only one with minutes and seconds in [0, 60):
      the contract of Split determines it. */
  lemma SplitUnique(total: int, c: Clock)
    requires 0 <= c.minutes < 60 && 0 <= c.seconds < 60
    requires c.hours * 3600 + c.minutes * 60 + c.seconds == total
    ensures c == Split(total)
  {
    var m := c.hours * 60 + c.minutes;
    assert total == m * 60 + c.seconds;
    DivModUnique(m, c.seconds, 60);
    DivModUnique(c.hours, c.minutes, 60);
  }

  /** `format_time(seconds)`: `f"{hours}h {minutes}m {seconds}s"`. The
      uptime text determines the duration: parsing it gives back the floored
      split, whose parts sum to the original number of seconds. */
  function FormatTime(total: int): (r: string)
    ensures ParseTime(r) == Some(Split(total))
  {
    var c := Split(total);
    ShowHasNoMark(c.hours, 'h');
    ShowHasNoMark(c.minutes, 'm');
    ShowHasNoMark(c.seconds, 's');
    ParseFields(Show(c.hours), Show(c.minutes), Show(c.seconds));
    ParseShow(c.hours);
    ParseShow(c.minutes);
    ParseShow(c.seconds);
    Show(c.hours) + "h " + Show(c.minutes) + "m " + Show(c.seconds) + "s"
  }

  /** The text before and after the first occurrence of `mark`. */
  function CutAt(s: string, mark: char): Option<(string, string)>
  {
    if s == [] then None
    else if s[0] == mark then Some(([], s[1..]))
    else match CutAt(s[1..], mark)
      case None => None
      case Some(parts) => Some(([s[0]] + parts.0, parts.1))
  }

  lemma {:induction false} CutAtFirst(a: string, mark: char, b: string)
    requires forall i :: 0 <= i < |a| ==> a[i] != mark
    ensures CutAt(a + [mark] + b, mark) == Some((a, b))
  {
    if a == [] {
      assert a + [mark] + b == [mark] + b;
    } else {
      CutAtFirst(a[1..], mark, b);
      assert (a + [mark] + b)[1..] == a[1..] + [mark] + b;
      assert [a[0]] + a[1..] == a;
    }
  }

  /** Reads a footer uptime `"<h>h <m>m <s>s"` back into its three parts. */
  function ParseTime(text: string): Option<Clock>
  {
    match CutAt(text, 'h')
    case None => None
    case Some(afterHours) =>
      match CutAt(afterHours.1, 'm')
      case None => None
      case Some(afterMinutes) =>
        match CutAt(afterMinutes.1, 's')
        case None => None
        case Some(afterSeconds) =>
          var h, m, s := afterHours.0, afterMinutes.0, afterSeconds.0;
          if afterSeconds.1 != [] || |m| == 0 || m[0] != ' ' || |s| == 0 || s[0] != ' ' then None
          else match (ParseInt(h), ParseInt(m[1..]), ParseInt(s[1..]))
            case (Some(hv), Some(mv), Some(sv)) => Some(Clock(hv, mv, sv))
            case _ => None
  }

  /** A decimal text holds none of the unit letters. */
  lemma ShowHasNoMark(n: int, mark: char)
    requires mark == 'h' || mark == 'm' || mark == 's'
    ensures forall i :: 0 <= i < |Show(n)| ==> Show(n)[i] != mark
    ensures forall i :: 0 <= i < |" " + Show(n)| ==> (" " + Show(n))[i] != mark
  {
  }

  /** Reading the three fields of a footer text back. */
  lemma ParseFields(h: string, m: string, s: string)
    requires forall i :: 0 <= i < |h| ==> h[i] != 'h'
    requires forall i :: 0 <= i < |" " + m| ==> (" " + m)[i] != 'm'
    requires forall i :: 0 <= i < |" " + s| ==> (" " + s)[i] != 's'
    ensures ParseTime(h + "h " + m + "m " + s + "s") ==
      match (ParseInt(h), ParseInt(m), ParseInt(s))
      case (Some(hv), Some(mv), Some(sv)) => Some(Clock(hv, mv, sv))
      case _ => None
  {
    var tailM := " " + m + "m " + s + "s";
    var tailS := " " + s + "s";
    assert h + "h " + m + "m " + s + "s" == h + ['h'] + tailM;
    CutAtFirst(h, 'h', tailM);
    assert tailM == (" " + m) + ['m'] + tailS;
    CutAtFirst(" " + m, 'm', tailS);
    assert tailS == (" " + s) + ['s'] + [];
    CutAtFirst(" " + s, 's', []);
    assert (" " + m)[1..] == m;
    assert (" " + s)[1..] == s;
  }

  /** The example of the docstring: `format_time(3665)` is `"1h 1m 5s"`. */
  lemma FormatTimeExample()
    ensures FormatTime(3665) == "1h 1m 5s"
  {
    assert Split(3665) == Clock(1, 1, 5);
    assert Show(1) == "1" && Show(5) == "5";
  }

  const TitleLimit := 256

  /** The truncation step of `send_embed`: a title longer than 256
      characters keeps its first 253 and gains `"..."`. Dafny's `char` is a
      Unicode scalar value, as Python's `len` counts. */
  function TruncateTitle(title: string): (r: string)
    ensures |r| <= TitleLimit
    ensures |title| <= TitleLimit ==> r == title
    ensures |title| > TitleLimit ==> |r| == TitleLimit && r[..253] == title[..253] && r[253..] == "..."
  {
    if |title| > TitleLimit then title[..253] + "..." else title
  }

  /** Truncating a truncated title changes nothing. */
  lemma TruncateTitleIdempotent(title: string)
    ensures TruncateTitle(TruncateTitle(title)) == TruncateTitle(title)
  {
  }
}
