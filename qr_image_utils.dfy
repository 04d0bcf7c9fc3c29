/**
 * lib/qrImageUtils.ts: the layout integers of the downloadable QR card and the loop
 * that shortens the puzzle title until its bracketed text fits the card.
 *
 * Canvas drawing, the QR code itself and the download are not modelled. The text
 * measurement `ctx.measureText(text).width` is the parameter `width`, about which
 * nothing is assumed.
 */
module QrImageUtils {

  const CanvasWidth: int := 560
  const CanvasHeight: int := 680
  const QrSize: int := 360
  const QrX: int := (CanvasWidth - QrSize) / 2
  const QrY: int := 122
  const Pad: int := 12
  const TitleY: int := QrY + QrSize + Pad * 2 + 28
  const MaxTitleWidth: int := CanvasWidth - 60
  /** The loop never shortens a title that is this long or shorter. */
  const MinTitleLength: nat := 5

  /**
   * The derived layout values, and that they leave the white QR box inside the card and
   * the title and instruction lines between the box and the bottom URL hint.
   */
  lemma LayoutConstants()
    ensures QrX == 100 && TitleY == 534 && MaxTitleWidth == 500
    ensures 0 <= QrX - Pad && QrX + QrSize + Pad <= CanvasWidth
    ensures QrY + QrSize + Pad < TitleY && TitleY + 28 < CanvasHeight - 30
  {
  }

  /** The text actually measured and drawn: the title in corner brackets. */
  function Bracketed(t: string): string
  {
    "「" + t + "」"
  }

  /** The title after `k` steps of the loop: for k >= 1, its first n-1-k characters and "…". */
  function Shortened(title: string, k: nat): (r: string)
    requires k == 0 || k < |title|
    ensures |r| == |title| - k
  {
    if k == 0 then title else title[..|title| - 1 - k] + "…"
  }

  /**
   * One step of the loop, `t.slice(0, -2) + "…"`, takes the title from k to k + 1 steps:
   * the ellipsis added by the previous step is among the two characters dropped.
   */
  lemma {:induction false} StepShortened(title: string, k: nat)
    requires k + 2 <= |title|
    ensures var t := Shortened(title, k); t[..|t| - 2] + "…" == Shortened(title, k + 1)
  {
    var t := Shortened(title, k);
    if k > 0 {
      assert t[..|t| - 2] == title[..|title| - 1 - k][..|t| - 2];
    }
  }

  /**
   * The truncation loop. A title of at most five characters, or one that already fits,
   * is drawn as it is. Otherwise characters are dropped two at a time and "…" is added,
   * one character shorter per step, until the bracketed text fits or five characters
   * remain; a title longer than five is never cut below five. `steps` is how many times
   * the loop ran: every shorter count still left a text too wide and longer than five,
   * so the title is cut no more than the loop's condition demands.
   */
  method TruncateTitle(title: string, width: string -> real) returns (display: string, ghost steps: nat)
    ensures steps == 0 || steps < |title|
    ensures display == Shortened(title, steps)
    ensures forall j :: 0 <= j < steps ==>
      width(Bracketed(Shortened(title, j))) > MaxTitleWidth as real && |title| - j > MinTitleLength
    ensures width(Bracketed(display)) <= MaxTitleWidth as real || |display| <= MinTitleLength
    ensures |title| <= MinTitleLength || width(Bracketed(title)) <= MaxTitleWidth as real ==> display == title
    ensures |title| > MinTitleLength ==> |display| >= MinTitleLength
  {
    display := title;
    steps := 0;
    while width(Bracketed(display)) > MaxTitleWidth as real && |display| > MinTitleLength
      invariant steps == 0 || steps < |title|
      invariant display == Shortened(title, steps)
      invariant |title| > MinTitleLength ==> |display| >= MinTitleLength
      invariant forall j :: 0 <= j < steps ==>
        width(Bracketed(Shortened(title, j))) > MaxTitleWidth as real && |title| - j > MinTitleLength
      decreases |display|
    {
      StepShortened(title, steps);
      display := display[..|display| - 2] + "…";
      steps := steps + 1;
    }
  }
}
