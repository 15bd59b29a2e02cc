/** Message schedules: the first sixteen words come from the block, and every later word is
    a function of the sixteen words before it. */
module Schedules {

  /** Every word from the sixteenth on is the recurrence applied to the window before it. */
  ghost predicate Follows<W>(next: seq<W> -> W, ws: seq<W>) {
    forall t :: 16 <= t < |ws| ==> ws[t] == next(ws[t - 16..t])
  }

  /** The recurrence can be run backwards: a window and its successor give back the first word. */
  ghost predicate Reversible<W(!new)>(next: seq<W> -> W, prev: (seq<W>, W) -> W) {
    forall win: seq<W> :: |win| == 16 ==> prev(win[1..], next(win)) == win[0]
  }

  /** The n-word schedule that starts with the sixteen words of the block. */
  function Expand<W>(next: seq<W> -> W, block: seq<W>, n: nat): (ws: seq<W>)
    requires |block| == 16 <= n
    ensures |ws| == n
  {
    if n == 16 then block
    else var ws := Expand(next, block, n - 1); ws + [next(ws[n - 17..])]
  }

  lemma {:induction false} ExpandFollows<W>(next: seq<W> -> W, block: seq<W>, n: nat)
    requires |block| == 16 <= n
    ensures Expand(next, block, n)[..16] == block
    ensures Follows(next, Expand(next, block, n))
  {
    if n > 16 {
      var ws, vs := Expand(next, block, n - 1), Expand(next, block, n);
      ExpandFollows(next, block, n - 1);
      forall t | 16 <= t < n ensures vs[t] == next(vs[t - 16..t]) {
        if t < n - 1 {
          assert vs[t - 16..t] == ws[t - 16..t];
        } else {
          assert vs[t - 16..t] == ws[n - 17..];
        }
      }
    }
  }

  /** The block and the recurrence leave no freedom: a schedule is the expansion of its start. */
  lemma {:induction false} FollowsIsExpand<W>(next: seq<W> -> W, ws: seq<W>)
    requires |ws| >= 16 && Follows(next, ws)
    ensures ws == Expand(next, ws[..16], |ws|)
    decreases |ws|
  {
    var n := |ws|;
    if n > 16 {
      var init := ws[..n - 1];
      forall t | 16 <= t < n - 1 ensures init[t] == next(init[t - 16..t]) {
        assert init[t - 16..t] == ws[t - 16..t];
      }
      FollowsIsExpand(next, init);
      assert init[..16] == ws[..16];
      assert init[n - 17..] == ws[n - 17..n - 1];
      assert ws == init + [ws[n - 1]];
    } else {
      assert ws[..16] == ws;
    }
  }

  /** The window one word earlier. */
  function Older<W>(prev: (seq<W>, W) -> W, win: seq<W>): (older: seq<W>)
    requires |win| == 16
    ensures |older| == 16
  {
    [prev(win[..15], win[15])] + win[..15]
  }

  /** Runs the recurrence backwards from the window at t down to the block. */
  function Rewind<W>(prev: (seq<W>, W) -> W, win: seq<W>, t: nat): (block: seq<W>)
    requires |win| == 16
    ensures |block| == 16
    decreases t
  {
    if t == 0 then win else Rewind(prev, Older(prev, win), t - 1)
  }

  lemma OlderWindow<W(!new)>(next: seq<W> -> W, prev: (seq<W>, W) -> W, ws: seq<W>, t: nat)
    requires t + 17 <= |ws| && Follows(next, ws) && Reversible(next, prev)
    ensures Older(prev, ws[t + 1..t + 17]) == ws[t..t + 16]
  {
    var win, older := ws[t + 1..t + 17], ws[t..t + 16];
    assert ws[t + 16] == next(older);
    assert win[..15] == older[1..];
    assert win[15] == ws[t + 16];
    assert older == [older[0]] + older[1..];
  }

  /** Any sixteen consecutive words of a schedule give back the sixteen words of the block. */
  lemma {:induction false} RewindWindow<W(!new)>(next: seq<W> -> W, prev: (seq<W>, W) -> W, ws: seq<W>, t: nat)
    requires t + 16 <= |ws| && Follows(next, ws) && Reversible(next, prev)
    ensures Rewind(prev, ws[t..t + 16], t) == ws[..16]
    decreases t
  {
    if t > 0 {
      OlderWindow(next, prev, ws, t - 1);
      RewindWindow(next, prev, ws, t - 1);
    } else {
      assert ws[0..16] == ws[..16];
    }
  }

  /** So any sixteen consecutive words determine every word, forwards and backwards. */
  lemma WindowDetermines<W(!new)>(next: seq<W> -> W, prev: (seq<W>, W) -> W, ws: seq<W>, t: nat)
    requires t + 16 <= |ws| && Follows(next, ws) && Reversible(next, prev)
    ensures Expand(next, Rewind(prev, ws[t..t + 16], t), |ws|) == ws
  {
    RewindWindow(next, prev, ws, t);
    FollowsIsExpand(next, ws);
  }
}
