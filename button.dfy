/** Buttons on the modem and the events they raise (src/button.rs). */
module Buttons {

  datatype Button = Set | Two | Three

  /** The Display text of a button: every text names the button as such. */
  function ButtonText(b: Button): (r: string)
    ensures |r| == 10 || |r| == 12
    ensures r[..7] == "Button " || r[|r| - 7..] == " button"
  {
    match b
    case Set => "SET button"
    case Two => "Button two"
    case Three => "Button three"
  }

  datatype ButtonEvent = Tapped(button: Button) | Held(button: Button) | Released(button: Button)

  /** The Display text of an event: the button's text, then what happened to it. */
  function EventText(e: ButtonEvent): (r: string)
    ensures ButtonText(e.button) <= r
    ensures |r| > |ButtonText(e.button)| && r[|r| - 1] == '.'
  {
    match e
    case Tapped(b) => ButtonText(b) + " tapped."
    case Held(b) => ButtonText(b) + " held."
    case Released(b) => ButtonText(b) + " released."
  }

  /** No two buttons share a text. */
  lemma ButtonTextInjective(a: Button, b: Button)
    requires ButtonText(a) == ButtonText(b)
    ensures a == b
  {
    assert ButtonText(a)[0] == ButtonText(b)[0];
    assert ButtonText(a)[7] == ButtonText(b)[7];
    assert ButtonText(a)[8] == ButtonText(b)[8];
  }

  /** No two button events share a text. */
  lemma EventTextInjective(d: ButtonEvent, e: ButtonEvent)
    requires EventText(d) == EventText(e)
    ensures d == e
  {
    var s := EventText(d);
    assert s[0] == EventText(e)[0];
    assert s[8] == EventText(e)[8];
    assert s[|s| - 3] == EventText(e)[|s| - 3];
    assert s[|s| - 6] == EventText(e)[|s| - 6];
  }
}
