/**
 * The heartbeat parser of the watchdog loop (run_red.py:69-72): a datagram
 * counts as a pulse when splitting its text on `=` and stripping each piece
 * gives exactly `["WATCHDOG", "1"]`, the `sd_notify` watchdog message.
 */
module Heartbeat {
  import opened Text

  /** `[f.strip() for f in parts]`. */
  function StripEach(parts: seq<string>): (r: seq<string>)
    ensures |r| == |parts|
    ensures forall k :: 0 <= k < |parts| ==> r[k] == Strip(parts[k])
  {
    if parts == [] then [] else [Strip(parts[0])] + StripEach(parts[1..])
  }

  /** The test at run_red.py:70-71. */
  predicate IsPulse(data: string) {
    StripEach(Split(data, '=')) == ["WATCHDOG", "1"]
  }

  /** Whitespace is never the separator. */
  lemma SpacesAreFree(w: string)
    requires AllSpace(w)
    ensures Free(w, '=')
  {
  }

  /** A word padded with whitespace holds no separator. */
  lemma PaddedIsFree(w1: string, word: string, w2: string)
    requires AllSpace(w1) && AllSpace(w2) && Free(word, '=')
    ensures Free(w1 + word + w2, '=')
  {
    SpacesAreFree(w1);
    SpacesAreFree(w2);
    FreeConcat(w1, word, '=');
    FreeConcat(w1 + word, w2, '=');
  }

  /** Splitting two separator-free texts joined by `=` gives the two texts back. */
  lemma SplitPair(a: string, b: string)
    requires Free(a, '=') && Free(b, '=')
    ensures Split(a + "=" + b, '=') == [a, b]
  {
    assert Join([a, b], '=') == a + "=" + b by {
      assert [a, b][1..] == [b];
    }
    SplitJoin([a, b], '=');
  }

  /**
   * Every payload of the form `WATCHDOG=1`, with any whitespace around
   * either word, is a pulse.
   */
  lemma PulseOfShape(w1: string, w2: string, w3: string, w4: string)
    requires AllSpace(w1) && AllSpace(w2) && AllSpace(w3) && AllSpace(w4)
    ensures IsPulse(w1 + "WATCHDOG" + w2 + "=" + w3 + "1" + w4)
  {
    var a, b := w1 + "WATCHDOG" + w2, w3 + "1" + w4;
    PaddedIsFree(w1, "WATCHDOG", w2);
    PaddedIsFree(w3, "1", w4);
    SplitPair(a, b);
    assert w1 + "WATCHDOG" + w2 + "=" + w3 + "1" + w4 == a + "=" + b;
    StripPadded(w1, "WATCHDOG", w2);
    StripPadded(w3, "1", w4);
  }

  /**
   * Conversely, every pulse is `WATCHDOG=1` with whitespace around the two
   * words and nothing else: exactly one `=`, no other characters.
   */
  lemma ShapeOfPulse(data: string) returns (w1: string, w2: string, w3: string, w4: string)
    requires IsPulse(data)
    ensures AllSpace(w1) && AllSpace(w2) && AllSpace(w3) && AllSpace(w4)
    ensures data == w1 + "WATCHDOG" + w2 + "=" + w3 + "1" + w4
  {
    var parts := Split(data, '=');
    assert |parts| == 2;
    assert data == parts[0] + "=" + parts[1] by {
      assert parts[1..] == [parts[1]];
    }
    assert Strip(parts[0]) == "WATCHDOG" && Strip(parts[1]) == "1";
    w1, w2 := Padding(parts[0]);
    w3, w4 := Padding(parts[1]);
  }

  /** The exact message is a pulse. */
  lemma ExactMessageIsPulse()
    ensures IsPulse("WATCHDOG=1")
  {
    PulseOfShape("", "", "", "");
    assert "WATCHDOG=1" == "" + "WATCHDOG" + "" + "=" + "" + "1" + "";
  }
}
