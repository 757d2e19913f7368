/** The context-packing rule shared by both retrieval snapshots: walk the
    candidates in order, render each one as a text block, and append the
    block when `fits(context so far, block)` holds; a block that does not fit
    is skipped and the walk goes on with the next one (there is no early
    exit). The two snapshots differ only in `fits`: a token count of the
    prospective context, or a character count. */
module GreedyPacking {
  import opened Strings

  /** The blocks of `items`, rendered and concatenated in order. */
  function Concat<T>(render: T -> string, items: seq<T>): string {
    if items == [] then "" else render(items[0]) + Concat(render, items[1..])
  }

  /** The items whose blocks the packer appends, starting from `context`. */
  function Pack<T>(fits: (string, string) -> bool, render: T -> string, context: string, items: seq<T>): (chosen: seq<T>)
    ensures |chosen| <= |items|
    decreases |items|
  {
    if items == [] then []
    else if fits(context, render(items[0])) then
      [items[0]] + Pack(fits, render, context + render(items[0]), items[1..])
    else
      Pack(fits, render, context, items[1..])
  }

  lemma {:induction false} ConcatSnoc<T>(render: T -> string, items: seq<T>, x: T)
    ensures Concat(render, items + [x]) == Concat(render, items) + render(x)
  {
    if items != [] {
      assert (items + [x])[1..] == items[1..] + [x];
      ConcatSnoc(render, items[1..], x);
    }
  }

  lemma {:induction false} ConcatAppend<T>(render: T -> string, a: seq<T>, b: seq<T>)
    ensures Concat(render, a + b) == Concat(render, a) + Concat(render, b)
  {
    if a == [] {
      assert a + b == b;
    } else {
      assert (a + b)[1..] == a[1..] + b;
      ConcatAppend(render, a[1..], b);
    }
  }

  /** Packing a list in two halves: the second half starts from the context the
      first half left behind, so a block skipped early never stops later ones
      from being tried. */
  lemma {:induction false} PackAppend<T>(fits: (string, string) -> bool, render: T -> string, context: string, p: seq<T>, q: seq<T>)
    ensures Pack(fits, render, context, p + q)
         == Pack(fits, render, context, p)
          + Pack(fits, render, context + Concat(render, Pack(fits, render, context, p)), q)
    decreases |p|
  {
    if p == [] {
      assert p + q == q;
      assert context + Concat(render, Pack(fits, render, context, p)) == context;
    } else {
      assert (p + q)[0] == p[0];
      assert (p + q)[1..] == p[1..] + q;
      var b := render(p[0]);
      if fits(context, b) {
        PackAppend(fits, render, context + b, p[1..], q);
        var rest := Pack(fits, render, context + b, p[1..]);
        assert Concat(render, [p[0]] + rest) == b + Concat(render, rest) by {
          assert ([p[0]] + rest)[1..] == rest;
        }
        assert context + b + Concat(render, rest) == context + (b + Concat(render, rest));
      } else {
        PackAppend(fits, render, context, p[1..], q);
      }
    }
  }

  /** The context after the first i items is a prefix of the context after the
      first j >= i items: the packer only ever appends. */
  lemma PackPrefixGrows<T>(fits: (string, string) -> bool, render: T -> string, start: string, items: seq<T>, i: nat, j: nat)
    requires i <= j <= |items|
    ensures StartsWith(start + Concat(render, Pack(fits, render, start, items[..j])),
                       start + Concat(render, Pack(fits, render, start, items[..i])))
  {
    var before := Pack(fits, render, start, items[..i]);
    var ci := start + Concat(render, before);
    var after := Pack(fits, render, ci, items[i..j]);
    assert items[..j] == items[..i] + items[i..j];
    PackAppend(fits, render, start, items[..i], items[i..j]);
    ConcatAppend(render, before, after);
    var cj := start + Concat(render, before + after);
    assert cj == ci + Concat(render, after);
    assert cj[..|ci|] == ci;
  }

  /** One step of the packing loop: item i is appended exactly when its block
      fits after the blocks already chosen from items[..i]. */
  lemma PackStep<T>(fits: (string, string) -> bool, render: T -> string, context: string, items: seq<T>, i: nat)
    requires i < |items|
    ensures
      var before := Pack(fits, render, context, items[..i]);
      var step := if fits(context + Concat(render, before), render(items[i])) then [items[i]] else [];
      Pack(fits, render, context, items[..i + 1]) == before + step
  {
    assert items[..i + 1] == items[..i] + [items[i]];
    PackAppend(fits, render, context, items[..i], [items[i]]);
  }

  /** One step of a loop that keeps `context == start + Concat(render, chosen)`:
      the next item is kept, and its text appended, exactly when it fits. */
  lemma PackLoopStep<T>(fits: (string, string) -> bool, render: T -> string, start: string, items: seq<T>, i: nat,
                        chosen: seq<T>, context: string)
    requires i < |items|
    requires chosen == Pack(fits, render, start, items[..i])
    requires context == start + Concat(render, chosen)
    ensures fits(context, render(items[i])) ==>
              Pack(fits, render, start, items[..i + 1]) == chosen + [items[i]] &&
              context + render(items[i]) == start + Concat(render, chosen + [items[i]])
    ensures !fits(context, render(items[i])) ==> Pack(fits, render, start, items[..i + 1]) == chosen
  {
    PackStep(fits, render, start, items, i);
    ConcatSnoc(render, chosen, items[i]);
  }

  /** The chosen items are the input with some items left out, in input order. */
  lemma {:induction false} PackSubsequence<T>(fits: (string, string) -> bool, render: T -> string, context: string, items: seq<T>)
    ensures IsSubsequence(Pack(fits, render, context, items), items)
    decreases |items|
  {
    if items != [] {
      var b := render(items[0]);
      if fits(context, b) {
        PackSubsequence(fits, render, context + b, items[1..]);
      } else {
        PackSubsequence(fits, render, context, items[1..]);
      }
    }
  }


  /** Whatever `fits` promises about the context it would produce holds of the
      final context as soon as one block was appended. */
  lemma {:induction false} PackWithin<T>(fits: (string, string) -> bool, render: T -> string, within: string -> bool, context: string, items: seq<T>)
    requires forall c, b :: fits(c, b) ==> within(c + b)
    ensures Pack(fits, render, context, items) != []
        ==> within(context + Concat(render, Pack(fits, render, context, items)))
    decreases |items|
  {
    if items != [] {
      var b := render(items[0]);
      if fits(context, b) {
        var rest := Pack(fits, render, context + b, items[1..]);
        PackWithin(fits, render, within, context + b, items[1..]);
        assert Concat(render, [items[0]] + rest) == b + Concat(render, rest) by {
          assert ([items[0]] + rest)[1..] == rest;
        }
        assert context + (b + Concat(render, rest)) == (context + b) + Concat(render, rest);
        if rest == [] {
          assert (context + b) + Concat(render, rest) == context + b;
        }
      } else {
        PackWithin(fits, render, within, context, items[1..]);
      }
    }
  }

  /** Nothing is appended exactly when no block fits on its own after the
      starting context. */
  lemma {:induction false} PackEmptyIff<T>(fits: (string, string) -> bool, render: T -> string, context: string, items: seq<T>)
    ensures Pack(fits, render, context, items) == []
        <==> forall k :: 0 <= k < |items| ==> !fits(context, render(items[k]))
  {
    if items != [] {
      PackEmptyIff(fits, render, context, items[1..]);
      assert forall k :: 1 <= k < |items| ==> items[k] == items[1..][k - 1];
    }
  }
}
