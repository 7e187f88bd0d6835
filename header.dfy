/**
 * The header's scroll handler: past 100 pixels the header takes its
 * "scrolled" background and border; when motion is allowed it slides out
 * of view while the page scrolls down beyond 200 pixels and comes back as
 * soon as it scrolls up (or returns near the top).
 */
module Header {

  const ScrolledBackground := "rgba(5, 5, 8, 0.98)"
  const ScrolledBorder := "rgba(255, 0, 170, 0.3)"
  const TopBackground := "rgba(5, 5, 8, 0.9)"
  const TopBorder := "rgba(255, 255, 255, 0.1)"
  const Hidden := "translateY(-100%)"
  const Shown := "translateY(0)"

  /** The header element's inline style and the handler's `lastScrollY`. */
  class Header {
    /** `prefers-reduced-motion: reduce`, read once when the page loads. */
    const prefersReduced: bool
    var lastScrollY: int
    var background: string
    var borderBottomColor: string
    var transform: string

    /** The header is styled as scrolled. */
    predicate Scrolled()
      reads this
    {
      background == ScrolledBackground && borderBottomColor == ScrolledBorder
    }

    /** A hidden header was hidden by motion the user allows, after a scroll
        that ended more than 200 pixels down. */
    predicate Valid()
      reads this
    {
      transform == Hidden ==> !prefersReduced && lastScrollY > 200
    }

    /** The header before any scroll event: no inline style, `lastScrollY = 0`. */
    constructor (prefersReduced: bool)
      ensures this.prefersReduced == prefersReduced && lastScrollY == 0
      ensures background == [] && borderBottomColor == [] && transform == []
      ensures Valid()
    {
      this.prefersReduced := prefersReduced;
      lastScrollY := 0;
      background, borderBottomColor, transform := [], [], [];
    }

    /** The `scroll` listener, with `window.scrollY` given as `current`. */
    method OnScroll(current: int)
      requires Valid()
      modifies this
      ensures Valid()
      ensures Scrolled() <==> current > 100
      ensures !Scrolled() ==> background == TopBackground && borderBottomColor == TopBorder
      ensures !prefersReduced ==> (transform == Hidden <==> current > old(lastScrollY) && current > 200)
      ensures !prefersReduced && transform != Hidden ==> transform == Shown
      ensures prefersReduced ==> transform == old(transform)
      ensures lastScrollY == current
    {
      if current > 100 {
        background := ScrolledBackground;
        borderBottomColor := ScrolledBorder;
      } else {
        background := TopBackground;
        borderBottomColor := TopBorder;
      }
      if !prefersReduced {
        if current > lastScrollY && current > 200 {
          transform := Hidden;
        } else {
          transform := Shown;
        }
      }
      lastScrollY := current;
    }
  }
}
