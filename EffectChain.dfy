/** The effect registry of VideoIOComponent as values: the ordered list of
    visual effects, where registration inserts, unregistration removes the
    first occurrence, and rendering folds the list over an image. */
module EffectChain {
  import opened Media

  /** No effect occurs twice in the list. */
  predicate NoDuplicates(effects: seq<VisualEffect>)
  {
    forall i, j :: 0 <= i < j < |effects| ==> effects[i] != effects[j]
  }

  /** Array.firstIndex(of:): the position of the first occurrence, if any. */
  function FirstIndex(effects: seq<VisualEffect>, effect: VisualEffect): (r: Option<nat>)
    ensures r.None? <==> effect !in effects
    ensures r.Some? ==> r.value < |effects| && effects[r.value] == effect
    ensures r.Some? ==> forall k :: 0 <= k < r.value ==> effects[k] != effect
  {
    if effects == [] then None
    else if effects[0] == effect then Some(0)
    else match FirstIndex(effects[1..], effect)
      case None => None
      case Some(i) => Some(i + 1)
  }

  /** The list after registerEffect(effect, index:) accepts `effect`: appended
      when the index is negative, otherwise inserted at the index, the
      effects before it kept in place and the later ones shifted by one
      (Array.insert(_:at:) traps for an index past the end). */
  function Insert(effects: seq<VisualEffect>, effect: VisualEffect, index: int): (r: seq<VisualEffect>)
    requires index <= |effects|
    ensures |r| == |effects| + 1
    ensures index < 0 ==> r == effects + [effect]
    ensures 0 <= index ==> r[index] == effect
    ensures 0 <= index ==> forall k :: 0 <= k < index ==> r[k] == effects[k]
    ensures 0 <= index ==> forall k :: index < k < |r| ==> r[k] == effects[k - 1]
  {
    if index < 0 then effects + [effect]
    else effects[..index] + [effect] + effects[index..]
  }

  /** Inserting adds exactly one occurrence of the effect and, when the
      effect was absent, keeps the list free of duplicates. */
  lemma InsertKeepsUnique(effects: seq<VisualEffect>, effect: VisualEffect, index: int)
    requires index <= |effects|
    ensures multiset(Insert(effects, effect, index)) == multiset(effects) + multiset{effect}
    ensures effect !in effects && NoDuplicates(effects) ==> NoDuplicates(Insert(effects, effect, index))
  {
    var r := Insert(effects, effect, index);
    if 0 <= index {
      assert effects == effects[..index] + effects[index..];
      assert r == effects[..index] + [effect] + effects[index..];
    }
    if effect !in effects && NoDuplicates(effects) {
      forall i, j | 0 <= i < j < |r| ensures r[i] != r[j] {
        var at := if index < 0 then |effects| else index;
        var i' := if i < at then i else i - 1;
        var j' := if j < at then j else j - 1;
        if i == at { assert r[j] == effects[j']; }
        else if j == at { assert r[i] == effects[i']; }
        else { assert r[i] == effects[i'] && r[j] == effects[j']; }
      }
    }
  }

  /** The list after unregisterEffect(effect): the first occurrence removed,
      the effects before it kept in place and the later ones shifted back by
      one, or the list itself when `effect` is absent. */
  function Remove(effects: seq<VisualEffect>, effect: VisualEffect): (r: seq<VisualEffect>)
    ensures effect !in effects ==> r == effects
    ensures effect in effects ==> |r| == |effects| - 1
    ensures effect in effects ==>
      var i := FirstIndex(effects, effect).value;
      (forall k :: 0 <= k < i ==> r[k] == effects[k]) &&
      (forall k :: i <= k < |r| ==> r[k] == effects[k + 1])
  {
    match FirstIndex(effects, effect)
    case None => effects
    case Some(i) => effects[..i] + effects[i + 1..]
  }

  /** Removing takes away exactly one occurrence of a present effect; on a
      list without duplicates the effect is no longer a member afterwards. */
  lemma RemoveDropsEffect(effects: seq<VisualEffect>, effect: VisualEffect)
    ensures multiset(Remove(effects, effect)) == multiset(effects) - multiset{effect}
    ensures NoDuplicates(effects) ==> NoDuplicates(Remove(effects, effect)) && effect !in Remove(effects, effect)
  {
    var r := Remove(effects, effect);
    if effect in effects {
      var i := FirstIndex(effects, effect).value;
      assert effects == effects[..i] + [effects[i]] + effects[i + 1..];
      assert r == effects[..i] + effects[i + 1..];
      if NoDuplicates(effects) {
        forall a, b | 0 <= a < b < |r| ensures r[a] != r[b] {
          var a' := if a < i then a else a + 1;
          var b' := if b < i then b else b + 1;
          assert r[a] == effects[a'] && r[b] == effects[b'];
        }
        forall k | 0 <= k < |r| ensures r[k] != effect {
          var k' := if k < i then k else k + 1;
          assert r[k] == effects[k'];
        }
      }
    }
  }

  /** The image that `effect(_:)` computes: each effect executed on the
      result of the previous one, from the first effect of the list to the
      last. */
  function Fold(effects: seq<VisualEffect>, image: Image): Image
  {
    if effects == [] then image else Fold(effects[1..], Execute(effects[0], image))
  }

  /** The effects an image has been through, innermost (first applied) first. */
  function AppliedEffects(image: Image): seq<VisualEffect>
  {
    match image
    case FromPixelBuffer(_) => []
    case Executed(effect, input) => AppliedEffects(input) + [effect]
  }

  /** The buffer an image was originally made from. */
  function SourceBuffer(image: Image): PixelBuffer
  {
    match image
    case FromPixelBuffer(buffer) => buffer
    case Executed(_, input) => SourceBuffer(input)
  }

  /** The last effect of the list is the outermost: eN(...e1(image)). */
  lemma {:induction false} FoldAppend(effects: seq<VisualEffect>, effect: VisualEffect, image: Image)
    ensures Fold(effects + [effect], image) == Execute(effect, Fold(effects, image))
    decreases |effects|
  {
    if effects != [] {
      assert (effects + [effect])[1..] == effects[1..] + [effect];
      FoldAppend(effects[1..], effect, Execute(effects[0], image));
    }
  }

  /** Folding a concatenation folds the first part, then the second. */
  lemma {:induction false} FoldConcat(first: seq<VisualEffect>, second: seq<VisualEffect>, image: Image)
    ensures Fold(first + second, image) == Fold(second, Fold(first, image))
    decreases |first|
  {
    if first == [] {
      assert first + second == second;
    } else {
      assert (first + second)[0] == first[0];
      assert (first + second)[1..] == first[1..] + second;
      FoldConcat(first[1..], second, Execute(first[0], image));
    }
  }

  /** The effects run on a frame are exactly the registered ones, in list
      order, and the frame is the one captured; with no effects the frame
      is returned as it is. */
  lemma {:induction false} FoldOrder(effects: seq<VisualEffect>, buffer: PixelBuffer)
    ensures AppliedEffects(Fold(effects, FromPixelBuffer(buffer))) == effects
    ensures SourceBuffer(Fold(effects, FromPixelBuffer(buffer))) == buffer
    ensures effects == [] ==> Fold(effects, FromPixelBuffer(buffer)) == FromPixelBuffer(buffer)
    decreases |effects|
  {
    if effects != [] {
      var init := effects[..|effects| - 1];
      var last := effects[|effects| - 1];
      assert effects == init + [last];
      FoldAppend(init, last, FromPixelBuffer(buffer));
      FoldOrder(init, buffer);
    }
  }

  /** Unregistering an effect that was just registered restores the list. */
  lemma RemoveUndoesInsert(effects: seq<VisualEffect>, effect: VisualEffect, index: int)
    requires effect !in effects
    requires index <= |effects|
    ensures Remove(Insert(effects, effect, index), effect) == effects
  {
    var r := Insert(effects, effect, index);
    var at := if index < 0 then |effects| else index;
    assert r[at] == effect;
    assert forall k :: 0 <= k < at ==> r[k] == effects[k];
    assert FirstIndex(r, effect) == Some(at);
    var s := Remove(r, effect);
    assert forall k :: 0 <= k < |s| ==> s[k] == effects[k];
  }

  /** Registering an effect again at the position it was unregistered from
      restores a list without duplicates. */
  lemma InsertUndoesRemove(effects: seq<VisualEffect>, index: nat)
    requires NoDuplicates(effects)
    requires index < |effects|
    ensures Insert(Remove(effects, effects[index]), effects[index], index) == effects
  {
    var effect := effects[index];
    assert FirstIndex(effects, effect) == Some(index) by {
      var f := FirstIndex(effects, effect).value;
      assert effects[f] == effects[index];
    }
    var s := Insert(Remove(effects, effect), effect, index);
    assert forall k :: 0 <= k < |s| ==> s[k] == effects[k];
  }

  /** Registering A and then B (both appended) runs A first and B second;
      after unregistering A only B runs. */
  lemma RegisterThenUnregister(a: VisualEffect, b: VisualEffect, buffer: PixelBuffer)
    requires a != b
    ensures Fold(Insert(Insert([], a, -1), b, -1), FromPixelBuffer(buffer))
         == Execute(b, Execute(a, FromPixelBuffer(buffer)))
    ensures Fold(Remove(Insert(Insert([], a, -1), b, -1), a), FromPixelBuffer(buffer))
         == Execute(b, FromPixelBuffer(buffer))
  {
    var chain := Insert(Insert([], a, -1), b, -1);
    assert chain == [a, b];
    assert FirstIndex(chain, a) == Some(0);
    assert Remove(chain, a) == [b];
    var image := FromPixelBuffer(buffer);
    FoldAppend([], a, image);
    FoldAppend([a], b, image);
    FoldAppend([], b, image);
    assert [] + [a] == [a] && [a] + [b] == chain && [] + [b] == [b];
  }
}
