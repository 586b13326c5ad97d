/** Greedy decoding of any next-token function: the stream that serial steps emit, and why a
    verified draft prefix is that stream whatever proposed the drafts. */
module GreedyStream {
  type Predictor = seq<nat> -> nat

  /** The n tokens of serial greedy decoding that starts by feeding seed after context. */
  ghost function Greedy(next: Predictor, context: seq<nat>, seed: nat, n: nat): (r: seq<nat>)
    ensures |r| == n
  {
    if n == 0 then []
    else
      var front := Greedy(next, context, seed, n - 1);
      front + [next(context + [seed] + front)]
  }

  /** A draft prefix the verifier agrees with is the greedy stream, whatever proposed it, and
      the verifier's token behind it is the next greedy token. */
  lemma {:induction false} AcceptedIsGreedy(next: Predictor, context: seq<nat>, seed: nat, drafts: seq<nat>,
                                            selected: seq<nat>, n: nat)
    requires n <= |drafts| && |drafts| < |selected|
    requires forall i | 0 <= i <= n :: selected[i] == next(context + [seed] + drafts[..i])
    requires forall i | 0 <= i < n :: drafts[i] == selected[i]
    ensures drafts[..n] + [selected[n]] == Greedy(next, context, seed, n + 1)
  {
    if n == 0 {
      assert drafts[..0] == Greedy(next, context, seed, 0);
    } else {
      AcceptedIsGreedy(next, context, seed, drafts, selected, n - 1);
      assert drafts[..n] == drafts[..n - 1] + [selected[n - 1]];
    }
  }

  /** A shorter greedy stream is a prefix of a longer one. */
  lemma {:induction false} GreedyPrefix(next: Predictor, context: seq<nat>, seed: nat, k: nat, n: nat)
    requires k <= n
    ensures Greedy(next, context, seed, n)[..k] == Greedy(next, context, seed, k)
  {
    if k < n {
      GreedyPrefix(next, context, seed, k, n - 1);
      var front := Greedy(next, context, seed, n - 1);
      assert Greedy(next, context, seed, n) == front + [next(context + [seed] + front)];
    } else {
      var all := Greedy(next, context, seed, n);
      assert all[..n] == all;
    }
  }

  /** Greedy decoding continued from the last of its own tokens is the longer stream. */
  lemma {:induction false} GreedyContinues(next: Predictor, context: seq<nat>, seed: nat, k: nat, n: nat)
    requires k > 0
    ensures var front := Greedy(next, context, seed, k);
            front + Greedy(next, context + [seed] + front[..k - 1], front[k - 1], n)
              == Greedy(next, context, seed, k + n)
  {
    var front := Greedy(next, context, seed, k);
    var context', seed' := context + [seed] + front[..k - 1], front[k - 1];
    if n > 0 {
      GreedyContinues(next, context, seed, k, n - 1);
      var back := Greedy(next, context', seed', n - 1);
      assert context' + [seed'] + back == context + [seed] + (front + back);
      assert front + (back + [next(context' + [seed'] + back)]) == (front + back) + [next(context' + [seed'] + back)];
    }
  }

  /** outputs[t] is the token selected after the context and the first t + 1 tokens of the block. */
  ghost predicate Selected(next: Predictor, context: seq<nat>, block: seq<nat>, outputs: seq<nat>) {
    |block| == |outputs| && forall t | 0 <= t < |block| :: outputs[t] == next(context + block[..t + 1])
  }

  /** The first n drafts are the tokens selected in their places, and the next one is not. */
  ghost predicate LongestAgreeing(next: Predictor, context: seq<nat>, seed: nat, drafts: seq<nat>, n: nat) {
    && n <= |drafts| && (forall i | 0 <= i < n :: drafts[i] == next(context + [seed] + drafts[..i]))
    && (n < |drafts| ==> drafts[n] != next(context + [seed] + drafts[..n]))
  }

  /** Drafts agree as long as they are greedy: the first k of them are the greedy stream exactly if k is
      no more than the length of the longest agreeing prefix. */
  lemma {:induction false} AgreeingIsGreedy(next: Predictor, context: seq<nat>, seed: nat, drafts: seq<nat>, n: nat,
                                            k: nat)
    requires LongestAgreeing(next, context, seed, drafts, n) && k <= |drafts|
    ensures k <= n <==> drafts[..k] == Greedy(next, context, seed, k)
    decreases k
  {
    if k == 0 {
      assert drafts[..0] == Greedy(next, context, seed, 0);
    } else {
      var j: nat := k - 1;
      var front := Greedy(next, context, seed, j);
      AgreeingIsGreedy(next, context, seed, drafts, n, j);
      assert Greedy(next, context, seed, k) == front + [next(context + [seed] + front)];
      assert drafts[..k] == drafts[..j] + [drafts[j]];
      GreedyPrefix(next, context, seed, j, k);
      assert drafts[..k] == Greedy(next, context, seed, k) ==> drafts[..j] == drafts[..k][..j] == front;
    }
  }

  /** Greedy drafts are all accepted. */
  lemma {:induction false} GreedyDraftsAccepted(next: Predictor, context: seq<nat>, seed: nat, drafts: seq<nat>, n: nat)
    requires LongestAgreeing(next, context, seed, drafts, n)
    ensures n == |drafts| <==> drafts == Greedy(next, context, seed, |drafts|)
  {
    AgreeingIsGreedy(next, context, seed, drafts, n, |drafts|);
    assert drafts[..|drafts|] == drafts;
  }

  /** The accept loop: drafts are accepted as long as they are what the target selected.  The
      accepted drafts and the target's next token are the greedy stream. */
  method CountAccepted(ghost next: Predictor, ghost context: seq<nat>, seed: nat, drafts: seq<nat>, outputs: seq<nat>)
    returns (accepted: nat)
    requires Selected(next, context, [seed] + drafts, outputs)
    ensures accepted <= |drafts| < |outputs|
    ensures LongestAgreeing(next, context, seed, drafts, accepted)
    ensures drafts[..accepted] + [outputs[accepted]] == Greedy(next, context, seed, accepted + 1)
    ensures context + ([seed] + drafts)[..accepted + 1] == context + [seed] + drafts[..accepted]
    ensures drafts[..accepted] == Greedy(next, context, seed, accepted)
  {
    accepted := 0;
    while accepted < |drafts| && drafts[accepted] == outputs[accepted]
      invariant accepted <= |drafts|
      invariant forall i | 0 <= i < accepted :: drafts[i] == outputs[i]
    {
      accepted := accepted + 1;
    }
    RoundIsGreedy(next, context, seed, drafts, outputs, accepted);
    SelectedAgree(next, context, seed, drafts, outputs, accepted);
  }

  lemma SelectedAgree(next: Predictor, context: seq<nat>, seed: nat, drafts: seq<nat>, outputs: seq<nat>, n: nat)
    requires n <= |drafts| && Selected(next, context, [seed] + drafts, outputs)
    requires forall i | 0 <= i < n :: drafts[i] == outputs[i]
    requires n < |drafts| ==> drafts[n] != outputs[n]
    ensures LongestAgreeing(next, context, seed, drafts, n)
  {
    forall i | 0 <= i <= |drafts|
      ensures outputs[i] == next(context + [seed] + drafts[..i])
    {
      assert context + ([seed] + drafts)[..i + 1] == context + [seed] + drafts[..i];
    }
  }

  /** What a verified round emits is the greedy stream, and what it commits feeds it: outputs[t]
      is selected after the seed and the first t drafts. */
  lemma RoundIsGreedy(next: Predictor, context: seq<nat>, seed: nat, drafts: seq<nat>, outputs: seq<nat>, accepted: nat)
    requires accepted <= |drafts| && Selected(next, context, [seed] + drafts, outputs)
    requires forall i | 0 <= i < accepted :: drafts[i] == outputs[i]
    ensures drafts[..accepted] + [outputs[accepted]] == Greedy(next, context, seed, accepted + 1)
    ensures drafts[..accepted] == Greedy(next, context, seed, accepted)
    ensures context + ([seed] + drafts)[..accepted + 1] == context + [seed] + drafts[..accepted]
  {
    forall i | 0 <= i <= |drafts|
      ensures outputs[i] == next(context + [seed] + drafts[..i])
    {
      assert context + ([seed] + drafts)[..i + 1] == context + [seed] + drafts[..i];
    }
    AcceptedIsGreedy(next, context, seed, drafts, outputs, accepted);
    var stream := Greedy(next, context, seed, accepted + 1);
    GreedyPrefix(next, context, seed, accepted, accepted + 1);
    assert stream[..accepted] == drafts[..accepted];
    assert context + ([seed] + drafts)[..accepted + 1] == context + [seed] + drafts[..accepted];
  }

  /** A loop that has emitted a stream after a prompt, and emits more behind its last token,
      has emitted the longer stream. */
  lemma StreamGrows(next: Predictor, prompt: seq<nat>, generated: seq<nat>, k: nat, more: seq<nat>, n: nat)
    requires prompt != [] && k > 0
    requires generated == Greedy(next, prompt[..|prompt| - 1], prompt[|prompt| - 1], k)
    requires more == Greedy(next, prompt + generated[..k - 1], generated[k - 1], n)
    ensures generated + more == Greedy(next, prompt[..|prompt| - 1], prompt[|prompt| - 1], k + n)
  {
    var context, seed := prompt[..|prompt| - 1], prompt[|prompt| - 1];
    assert context + [seed] + generated[..k - 1] == prompt + generated[..k - 1] by {
      assert context + [seed] == prompt;
    }
    GreedyContinues(next, context, seed, k, n);
  }

  lemma {:induction false} GreedyOnce(next: Predictor, context: seq<nat>, seed: nat)
    ensures Greedy(next, context, seed, 1) == [next(context + [seed])]
  {
    assert Greedy(next, context, seed, 0) == [];
    assert context + [seed] + [] == context + [seed];
  }
}
