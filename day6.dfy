// Day 6: tuning trouble.  The start-of-packet marker ends the first run of
// four characters that are all different; the start-of-message marker ends
// the first such run of fourteen.  A window passes when the set of its
// characters is as large as the window.

module Day6 {
  import opened Wrappers
  import opened Text

  /** No character occurs twice in `w`. */
  predicate AllDistinct(w: seq<char>)
  {
    forall i, j | 0 <= i < j < |w| :: w[i] != w[j]
  }

  /** The window of `size` characters starting at `idx`. */
  function Window(signal: seq<char>, idx: nat, size: nat): (w: seq<char>)
    requires idx + size <= |signal|
    ensures |w| == size && forall k | 0 <= k < size :: w[k] == signal[idx + k]
  {
    signal[idx..idx + size]
  }

  /** The set test of `first_window_with_all_different_characters`: the
      window's characters, collected into a set, are as many as the window
      is long. */
  predicate SetTest(w: seq<char>)
  {
    |Chars(w)| == |w|
  }

  /** A sequence has at most as many different characters as positions. */
  lemma {:induction false} CharsAtMost(w: seq<char>)
    ensures |Chars(w)| <= |w|
    decreases |w|
  {
    if w != [] {
      CharsAtMost(w[1..]);
      assert Chars(w) == {w[0]} + Chars(w[1..]);
    }
  }

  /** The set test passes exactly when no character repeats. */
  lemma {:induction false} SetTestIffDistinct(w: seq<char>)
    ensures SetTest(w) <==> AllDistinct(w)
    decreases |w|
  {
    if w != [] {
      var rest := w[1..];
      SetTestIffDistinct(rest);
      CharsAtMost(rest);
      assert Chars(w) == {w[0]} + Chars(rest);
      if w[0] in rest {
        var j :| 0 <= j < |rest| && rest[j] == w[0];
        assert w[0] == w[j + 1];
        assert Chars(w) == Chars(rest);
      } else {
        assert w[0] !in Chars(rest);
        if AllDistinct(rest) {
          forall i, j | 0 <= i < j < |w|
            ensures w[i] != w[j]
          {
            if i == 0 {
              assert w[j] == rest[j - 1];
            } else {
              assert w[i] == rest[i - 1] && w[j] == rest[j - 1];
            }
          }
        }
        if AllDistinct(w) {
          forall i, j | 0 <= i < j < |rest|
            ensures rest[i] != rest[j]
          {
            assert rest[i] == w[i + 1] && rest[j] == w[j + 1];
          }
        }
      }
    }
  }

  /** The window starting at `idx` passes. */
  predicate DistinctAt(signal: seq<char>, idx: nat, size: nat)
  {
    idx + size <= |signal| && AllDistinct(Window(signal, idx, size))
  }

  /** Some window of `size` characters passes. */
  predicate HasMarker(signal: seq<char>, size: nat)
  {
    exists idx | 0 <= idx <= |signal| :: DistinctAt(signal, idx, size)
  }

  /** `windows(size).enumerate().find_map(..)` from window `idx` on: the
      position of the last character of the first window that passes the
      set test, if any. */
  function FindMarker(signal: seq<char>, size: nat, idx: nat): (r: Option<nat>)
    requires size > 0
    ensures r.Some? ==>
      size <= r.value + 1 && idx <= r.value + 1 - size && DistinctAt(signal, r.value + 1 - size, size) &&
      forall k | idx <= k < r.value + 1 - size :: !DistinctAt(signal, k, size)
    ensures r.None? ==> forall k | idx <= k :: !DistinctAt(signal, k, size)
    decreases |signal| - idx
  {
    if idx + size > |signal| then None
    else
      var w := Window(signal, idx, size);
      SetTestIffDistinct(w);
      if SetTest(w) then Some(idx + size - 1)
      else FindMarker(signal, size, idx + 1)
  }

  /** `first_window_with_all_different_characters`: the position of the last
      character of the first window of `size` distinct characters.  The
      source unwraps the search, so a passing window is required; `windows`
      refuses a zero size. */
  function FirstWindowWithAllDifferentCharacters(signal: seq<char>, size: nat): (r: nat)
    requires size > 0 && HasMarker(signal, size)
    ensures size - 1 <= r < |signal|
    ensures DistinctAt(signal, r + 1 - size, size)
    ensures forall k | 0 <= k < r + 1 - size :: !DistinctAt(signal, k, size)
  {
    var found := FindMarker(signal, size, 0);
    assert found.Some?;
    found.value
  }

  /** The first passing window is unique: a position whose window passes and
      no earlier one does is the answer. */
  lemma MarkerUnique(signal: seq<char>, size: nat, r: nat)
    requires size > 0 && size - 1 <= r && DistinctAt(signal, r + 1 - size, size)
    requires forall k | 0 <= k < r + 1 - size :: !DistinctAt(signal, k, size)
    ensures FirstWindowWithAllDifferentCharacters(signal, size) == r
  {
    var found := FirstWindowWithAllDifferentCharacters(signal, size);
    assert !(found < r) && !(r < found);
  }

  /** `start_of_packet_index`: the end of the first window of four. */
  function StartOfPacketIndex(s: string): nat
    requires HasMarker(s, 4)
  {
    FirstWindowWithAllDifferentCharacters(s, 4)
  }

  /** `start_of_message_index`: the end of the first window of fourteen. */
  function StartOfMessageIndex(s: string): nat
    requires HasMarker(s, 14)
  {
    FirstWindowWithAllDifferentCharacters(s, 14)
  }

  /** A message window of fourteen distinct characters holds a packet window
      of four, so the packet marker never comes after the message marker. */
  lemma PacketBeforeMessage(s: string)
    requires HasMarker(s, 14)
    ensures HasMarker(s, 4) && StartOfPacketIndex(s) <= StartOfMessageIndex(s)
  {
    var m := StartOfMessageIndex(s);
    var idx := m + 1 - 14;
    var start := idx + 10;
    var big, small := Window(s, idx, 14), Window(s, start, 4);
    forall i, j | 0 <= i < j < 4
      ensures small[i] != small[j]
    {
      assert small[i] == big[i + 10] && small[j] == big[j + 10];
    }
    assert DistinctAt(s, start, 4);
    var p := StartOfPacketIndex(s);
  }

  // ---------------------------------------------------------------------
  // The published example

  const Example: string := "mjqjpqmgbljsphdztnvjfqwrcgsmlb"

  /** Two equal characters inside a window make it fail. */
  lemma RepeatInWindow(signal: seq<char>, idx: nat, size: nat, i: nat, j: nat)
    requires idx <= i < j < idx + size <= |signal| && signal[i] == signal[j]
    ensures !DistinctAt(signal, idx, size)
  {
    var w := Window(signal, idx, size);
    assert w[i - idx] == w[j - idx];
  }

  /** A window whose characters differ pairwise passes. */
  lemma DistinctWindow(signal: seq<char>, idx: nat, size: nat)
    requires idx + size <= |signal|
    requires forall i, j | idx <= i < j < idx + size :: signal[i] != signal[j]
    ensures DistinctAt(signal, idx, size)
  {
    var w := Window(signal, idx, size);
    forall i, j | 0 <= i < j < size
      ensures w[i] != w[j]
    {
      assert w[i] == signal[idx + i] && w[j] == signal[idx + j];
    }
  }

  /** The example signal, character by character. */
  predicate IsExample(s: string)
  {
    |s| == 30 &&
    s[0] == 'm' && s[1] == 'j' && s[2] == 'q' && s[3] == 'j' && s[4] == 'p' && s[5] == 'q' &&
    s[6] == 'm' && s[7] == 'g' && s[8] == 'b' && s[9] == 'l' && s[10] == 'j' && s[11] == 's' &&
    s[12] == 'p' && s[13] == 'h' && s[14] == 'd' && s[15] == 'z' && s[16] == 't' && s[17] == 'n' &&
    s[18] == 'v' && s[19] == 'j' && s[20] == 'f' && s[21] == 'q' && s[22] == 'w' && s[23] == 'r' &&
    s[24] == 'c' && s[25] == 'g' && s[26] == 's' && s[27] == 'm' && s[28] == 'l' && s[29] == 'b'
  }

  lemma ExampleIsExample()
    ensures IsExample(Example)
  {
    assert |Example| == 30;
    assert Example[0] == 'm' && Example[1] == 'j' && Example[2] == 'q' && Example[3] == 'j' && Example[4] == 'p' && Example[5] == 'q';
    assert Example[6] == 'm' && Example[7] == 'g' && Example[8] == 'b' && Example[9] == 'l' && Example[10] == 'j' && Example[11] == 's';
    assert Example[12] == 'p' && Example[13] == 'h' && Example[14] == 'd' && Example[15] == 'z' && Example[16] == 't' && Example[17] == 'n';
    assert Example[18] == 'v' && Example[19] == 'j' && Example[20] == 'f' && Example[21] == 'q' && Example[22] == 'w' && Example[23] == 'r';
    assert Example[24] == 'c' && Example[25] == 'g' && Example[26] == 's' && Example[27] == 'm' && Example[28] == 'l' && Example[29] == 'b';
  }

  /** The first packet marker of the example ends at the seventh character. */
  lemma ExamplePacketAt(s: string)
    requires IsExample(s)
    ensures HasMarker(s, 4) && StartOfPacketIndex(s) + 1 == 7
  {
    assert DistinctAt(s, 3, 4) by {
      assert forall i, j | 3 <= i < j < 7 :: s[i] != s[j];
      DistinctWindow(s, 3, 4);
    }
    assert !DistinctAt(s, 0, 4) by { RepeatInWindow(s, 0, 4, 1, 3); }
    assert !DistinctAt(s, 1, 4) by { RepeatInWindow(s, 1, 4, 1, 3); }
    assert !DistinctAt(s, 2, 4) by { RepeatInWindow(s, 2, 4, 2, 5); }
    MarkerUnique(s, 4, 6);
  }

  /** The first message marker of the example ends at the nineteenth
      character. */
  lemma ExampleMessageAt(s: string)
    requires IsExample(s)
    ensures HasMarker(s, 14) && StartOfMessageIndex(s) + 1 == 19
  {
    assert DistinctAt(s, 5, 14) by {
      assert forall i, j | 5 <= i < j < 19 :: s[i] != s[j];
      DistinctWindow(s, 5, 14);
    }
    assert !DistinctAt(s, 0, 14) by { RepeatInWindow(s, 0, 14, 0, 6); }
    assert !DistinctAt(s, 1, 14) by { RepeatInWindow(s, 1, 14, 1, 3); }
    assert !DistinctAt(s, 2, 14) by { RepeatInWindow(s, 2, 14, 2, 5); }
    assert !DistinctAt(s, 3, 14) by { RepeatInWindow(s, 3, 14, 3, 10); }
    assert !DistinctAt(s, 4, 14) by { RepeatInWindow(s, 4, 14, 4, 12); }
    MarkerUnique(s, 14, 18);
  }

  /** `test_example1`. */
  lemma ExamplePacket()
    ensures HasMarker(Example, 4) && StartOfPacketIndex(Example) + 1 == 7
  {
    ExampleIsExample();
    ExamplePacketAt(Example);
  }

  /** `test_example2`. */
  lemma ExampleMessage()
    ensures HasMarker(Example, 14) && StartOfMessageIndex(Example) + 1 == 19
  {
    ExampleIsExample();
    ExampleMessageAt(Example);
  }
}
