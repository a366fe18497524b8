/** The ANSI colour wrappers and the quoted health-status test of scripts/utilities.py. */
module Utilities {
  import opened Wrappers
  import opened Seqs

  /** The five colorize_* wrappers differ only in their SGR colour code. */
  datatype Color = LightBlue | Red | Yellow | Green | Pink

  function Code(c: Color): string {
    match c
    case LightBlue => "36"
    case Red => "31"
    case Yellow => "33"
    case Green => "32"
    case Pink => "35"
  }

  const Esc: char := 27 as char

  /** ESC [ <code> m */
  function ColorPrefix(c: Color): (p: string)
    ensures |p| == 5
  {
    [Esc, '['] + Code(c) + "m"
  }

  /** ESC [ 0 m */
  const Reset: string := [Esc, '[', '0', 'm']

  /** colorize_<colour>(msg) */
  function Colorize(c: Color, msg: string): (r: string)
    ensures |r| == |msg| + 9
    ensures IsPrefix(ColorPrefix(c), r)
    ensures r[|r| - 4..] == Reset
    ensures r[5..|r| - 4] == msg
  {
    ColorPrefix(c) + msg + Reset
  }

  /** Strips a colour prefix and the reset suffix; None when `s` is not wrapped in colour `c`. */
  function Uncolorize(c: Color, s: string): (r: Option<string>)
    ensures r.Some? ==> |r.value| + 9 == |s|
  {
    if |s| >= 9 && s[..5] == ColorPrefix(c) && s[|s| - 4..] == Reset then Some(s[5..|s| - 4]) else None
  }

  /** The message is recovered from its coloured form. */
  lemma UncolorizeColorize(c: Color, msg: string)
    ensures Uncolorize(c, Colorize(c, msg)) == Some(msg)
  {
    var s := Colorize(c, msg);
    assert s[..5] == ColorPrefix(c);
  }

  /** Different colours give different strings for the same message. */
  lemma ColorsDistinct(c1: Color, c2: Color, msg: string)
    requires c1 != c2
    ensures Colorize(c1, msg) != Colorize(c2, msg)
  {
    assert Colorize(c1, msg)[3] == Code(c1)[1];
    assert Colorize(c2, msg)[3] == Code(c2)[1];
  }

  const QuotedHealthy: string := "\"healthy\""

  /** utilities.check_healthy_output: some line starts with "healthy", quotes included. */
  function CheckHealthyOutput(lines: seq<string>): (r: bool)
    ensures r <==> exists i :: 0 <= i < |lines| && IsPrefix(QuotedHealthy, lines[i])
    decreases |lines|
  {
    if lines == [] then false
    else IsPrefix(QuotedHealthy, lines[0]) || CheckHealthyOutput(lines[1..])
  }

  /** A quoted "unhealthy" status, an unquoted healthy and no output at all are each rejected. */
  lemma QuotedCheckRejects()
    ensures !CheckHealthyOutput(["\"unhealthy\""])
    ensures !CheckHealthyOutput(["healthy"])
    ensures !CheckHealthyOutput([])
  {
    assert !IsPrefix(QuotedHealthy, "\"unhealthy\"") by {
      assert "\"unhealthy\""[1] != QuotedHealthy[1];
    }
    assert !IsPrefix(QuotedHealthy, "healthy");
  }
}
