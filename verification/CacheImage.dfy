/** Bounds-checked views of the visible and the applied register image. */
module CacheImage {
  import opened Words
  import opened IngressWork

  /** `image` with `source` written over it from `start` on. */
  function Overwrite(image: seq<Value>, start: nat, source: seq<Value>): (result: seq<Value>)
    requires start + |source| <= |image|
    ensures |result| == |image|
    ensures forall i | 0 <= i < |image| ::
              result[i] == if start <= i < start + |source| then source[i - start] else image[i]
  {
    image[..start] + source + image[start + |source|..]
  }

  /** A borrowed span of a caller's array; the length is a 16-bit count. */
  class MutableImageView {
    const values: array<Value>
    const present: bool

    constructor (values: array<Value>, present: bool)
      ensures this.values == values && this.present == present
    {
      this.values := values;
      this.present := present;
    }

    ghost predicate Valid() {
      values.Length < ADDRESS_SPACE
    }

    predicate Contains(start: u16, count: u16)
      requires Valid()
    {
      count != 0 && present && start + count <= values.Length
    }

    method CopyFrom(start: u16, source: Buffer, count: u16) returns (ok: bool)
      requires Valid() && (source.Buffer? ==> count <= |source.values|)
      modifies values
      ensures ok <==> source.Buffer? && Contains(start, count)
      ensures values[..] == if ok then Overwrite(old(values[..]), start, source.values[..count]) else old(values[..])
    {
      if source.Null? || !Contains(start, count) {
        return false;
      }
      ghost var before := values[..];
      for i := 0 to count
        invariant values[..] == Overwrite(before, start, source.values[..i])
      {
        values[start + i] := source.values[i];
      }
      return true;
    }
  }

  /** The visible image and the last state known to be applied downstream. */
  class DesiredAppliedCache {
    const visible: MutableImageView
    const applied: MutableImageView

    constructor (visible: MutableImageView, applied: MutableImageView)
      ensures this.visible == visible && this.applied == applied
    {
      this.visible := visible;
      this.applied := applied;
    }

    /** The two images do not share storage, as the copies require. */
    ghost predicate Valid() {
      visible.Valid() && applied.Valid() && visible.values != applied.values
    }

    method CaptureDesired(start: u16, snapshot: Buffer, count: u16) returns (ok: bool)
      requires Valid() && (snapshot.Buffer? ==> count <= |snapshot.values|)
      modifies visible.values
      ensures ok <==> snapshot.Buffer? && visible.Contains(start, count)
      ensures visible.values[..]
              == if ok then Overwrite(old(visible.values[..]), start,
                  snapshot.values[..count]) else old(visible.values[..])
    {
      ok := visible.CopyFrom(start, snapshot, count);
    }

    method MarkApplied(start: u16, snapshot: Buffer, count: u16) returns (ok: bool)
      requires Valid() && (snapshot.Buffer? ==> count <= |snapshot.values|)
      modifies applied.values
      ensures ok <==> snapshot.Buffer? && applied.Contains(start, count)
      ensures applied.values[..]
              == if ok then Overwrite(old(applied.values[..]), start,
                  snapshot.values[..count]) else old(applied.values[..])
    {
      ok := applied.CopyFrom(start, snapshot, count);
    }

    /** Roll exactly one range of the visible image back to what is applied. */
    method Restore(start: u16, count: u16) returns (ok: bool)
      requires Valid()
      modifies visible.values
      ensures ok <==> visible.Contains(start, count) && applied.Contains(start, count)
      ensures visible.values[..]
              == if ok then Overwrite(old(visible.values[..]), start, applied.values[start..start + count])
                 else old(visible.values[..])
    {
      if !visible.Contains(start, count) || !applied.Contains(start, count) {
        return false;
      }
      ok := visible.CopyFrom(start, Buffer.Buffer(0, applied.values[start..start + count]), count);
      assert applied.values[start..start + count][..count] == applied.values[start..start + count];
    }
  }

  /** Restoring a captured range from an applied image undoes the capture exactly when the two images
      had agreed on that range before it. */
  lemma {:induction false} RestoreUndoesCapture(
    visible: seq<Value>, applied: seq<Value>, start: nat, snapshot: seq<Value>)
    requires |visible| == |applied| && start + |snapshot| <= |visible|
    ensures var end := start + |snapshot|;
            Overwrite(Overwrite(visible, start, snapshot), start, applied[start..end]) == visible
            <==> visible[start..end] == applied[start..end]
  {
    var end := start + |snapshot|;
    var restored := Overwrite(Overwrite(visible, start, snapshot), start, applied[start..end]);
    assert restored[start..end] == applied[start..end];
  }
}
