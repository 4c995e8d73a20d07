/** Optional values and the outcome of code that can panic. */
module Outcomes {

  datatype Option<T> = None | Some(value: T)

  /** Why a Rust call panicked: a slice index past the end, or `unwrap` on `None`. */
  datatype PanicReason = IndexOutOfBounds | UnwrapOnNone

  /** The result of an operation that either returns a value or panics. */
  datatype Outcome<T> = Ok(value: T) | Panic(reason: PanicReason)

  /** The values of `rs` in order, or the first panic among them. */
  function Collect<T>(rs: seq<Outcome<T>>): (r: Outcome<seq<T>>)
    ensures r.Ok? ==> |r.value| == |rs|
  {
    if rs == [] then Ok([])
    else
      match Collect(rs[..|rs| - 1])
      case Panic(e) => Panic(e)
      case Ok(vs) =>
        match rs[|rs| - 1]
        case Panic(e) => Panic(e)
        case Ok(v) => Ok(vs + [v])
  }

  /** `Collect` succeeds exactly when every outcome does, keeps their values in order, and otherwise reports one of their panics. */
  lemma {:induction false} CollectMeaning<T>(rs: seq<Outcome<T>>)
    ensures Collect(rs).Ok? <==> forall k :: 0 <= k < |rs| ==> rs[k].Ok?
    ensures Collect(rs).Ok? ==> forall k :: 0 <= k < |rs| ==> Collect(rs).value[k] == rs[k].value
    ensures Collect(rs).Panic? ==> exists k :: 0 <= k < |rs| && rs[k] == Panic(Collect(rs).reason)
  {
    if rs != [] {
      var init := rs[..|rs| - 1];
      CollectMeaning(init);
      assert forall k :: 0 <= k < |init| ==> init[k] == rs[k];
      if Collect(rs).Ok? {
        var vs, all := Collect(init).value, Collect(rs).value;
        assert all == vs + [rs[|rs| - 1].value];
        forall k | 0 <= k < |rs|
          ensures all[k] == rs[k].value
        {
          if k < |init| {
            assert all[k] == vs[k];
          }
        }
      }
    }
  }

  lemma CollectSnoc<T>(rs: seq<Outcome<T>>, i: nat)
    requires i < |rs|
    ensures Collect(rs[..i + 1]) ==
      match Collect(rs[..i])
      case Panic(e) => Panic(e)
      case Ok(vs) =>
        match rs[i]
        case Panic(e) => Panic(e)
        case Ok(v) => Ok(vs + [v])
  {
    assert rs[..i + 1][..i] == rs[..i];
  }

  /** Once a prefix has panicked, so has the whole list. */
  lemma {:induction false} CollectPanicStays<T>(rs: seq<Outcome<T>>, j: nat)
    requires j <= |rs| && Collect(rs[..j]).Panic?
    ensures Collect(rs) == Collect(rs[..j])
    decreases |rs| - j
  {
    if j < |rs| {
      CollectSnoc(rs, j);
      CollectPanicStays(rs, j + 1);
    } else {
      assert rs[..j] == rs;
    }
  }
}
