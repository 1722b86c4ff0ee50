/** The string operations the chat responder relies on: JavaScript's
    `String.prototype.split` with the one-character separator `' '`, and
    joining words back together with single spaces. */
module Words {

  const Space: char := ' '

  /** `s.split(' ')`: every space ends a word, so consecutive, leading or
      trailing spaces yield empty words and the result is never empty. */
  function Split(s: string): (ws: seq<string>)
    ensures |ws| >= 1
    ensures forall i :: 0 <= i < |ws| ==> Space !in ws[i]
  {
    if |s| == 0 then [""]
    else
      var rest := Split(s[1..]);
      if s[0] == Space then [""] + rest
      else [[s[0]] + rest[0]] + rest[1..]
  }

  /** `s.split(' ')` yields one word more than `s` has spaces. */
  lemma {:induction false} SplitCount(s: string)
    ensures |Split(s)| == multiset(s)[Space] + 1
  {
    if |s| > 0 {
      assert s == [s[0]] + s[1..];
      SplitCount(s[1..]);
    }
  }

  /** `ws.join(' ')`. */
  function Join(ws: seq<string>): (s: string)
    ensures |ws| > 0 ==> |s| >= |ws| - 1
  {
    if |ws| == 0 then ""
    else if |ws| == 1 then ws[0]
    else ws[0] + [Space] + Join(ws[1..])
  }

  /** The words of `s`, rejoined with single spaces, give back `s` exactly. */
  lemma {:induction false} JoinSplit(s: string)
    ensures Join(Split(s)) == s
  {
    if |s| > 0 {
      var c, t := s[0], s[1..];
      assert s == [c] + t;
      var rest := Split(t);
      JoinSplit(t);
      if c == Space {
        JoinCons("", rest);
      } else if |rest| == 1 {
        assert Split(s) == [[c] + rest[0]];
      } else {
        JoinCons(rest[0], rest[1..]);
        assert rest == [rest[0]] + rest[1..];
        JoinCons([c] + rest[0], rest[1..]);
      }
    }
  }

  /** Joining a word in front of at least one more word puts one space
      between them. */
  lemma JoinCons(w: string, ws: seq<string>)
    requires |ws| > 0
    ensures Join([w] + ws) == w + [Space] + Join(ws)
  {
    assert ([w] + ws)[1..] == ws;
  }

  /** A word without spaces splits into itself. */
  lemma {:induction false} SplitWord(w: string)
    requires Space !in w
    ensures Split(w) == [w]
  {
    if |w| > 0 {
      assert w[0] in w;
      assert forall c :: c in w[1..] ==> c in w;
      SplitWord(w[1..]);
      assert Split(w) == [[w[0]] + w[1..]];
      assert [w[0]] + w[1..] == w;
    }
  }

  /** Splitting at the first space of `w + " " + t` separates `w` from the
      words of `t`. */
  lemma {:induction false} SplitAfterWord(w: string, t: string)
    requires Space !in w
    ensures Split(w + [Space] + t) == [w] + Split(t)
  {
    if |w| == 0 {
      assert w + [Space] + t == [Space] + t;
      assert ([Space] + t)[1..] == t;
    } else {
      var s := w + [Space] + t;
      assert s[0] == w[0];
      assert s[1..] == w[1..] + [Space] + t;
      SplitAfterWord(w[1..], t);
      assert [w[0]] + w[1..] == w;
    }
  }

  /** Joining non-empty, space-free words and splitting again gives back
      the words: the other half of the round trip. */
  lemma {:induction false} SplitJoin(ws: seq<string>)
    requires |ws| > 0
    requires forall i :: 0 <= i < |ws| ==> Space !in ws[i]
    ensures Split(Join(ws)) == ws
  {
    if |ws| == 1 {
      SplitWord(ws[0]);
    } else {
      SplitJoin(ws[1..]);
      SplitAfterWord(ws[0], Join(ws[1..]));
      assert [ws[0]] + ws[1..] == ws;
    }
  }

  /** Appending one word to a joined prefix: the step the responder performs
      on every tick. */
  lemma {:induction false} JoinSnoc(ws: seq<string>, w: string)
    ensures Join(ws + [w]) == Join(ws) + (if |ws| > 0 then [Space] else "") + w
  {
    if |ws| == 0 {
      assert ws + [w] == [w];
    } else if |ws| == 1 {
      assert ws + [w] == [ws[0], w];
      assert [ws[0], w][1..] == [w];
    } else {
      JoinSnoc(ws[1..], w);
      assert (ws + [w])[1..] == ws[1..] + [w];
    }
  }

  /** The prefix form used by the streaming invariant. */
  lemma JoinPrefixStep(ws: seq<string>, k: nat)
    requires k < |ws|
    ensures Join(ws[..k + 1]) == Join(ws[..k]) + (if k > 0 then [Space] else "") + ws[k]
  {
    assert ws[..k + 1] == ws[..k] + [ws[k]];
    JoinSnoc(ws[..k], ws[k]);
  }
}
