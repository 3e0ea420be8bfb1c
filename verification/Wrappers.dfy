/** The usual result types: an optional value, and a value or an error. */
module Wrappers {
  datatype Option<+T> = None | Some(value: T)

  datatype Result<+T, +E> = Ok(value: T) | Err(error: E)

  /** A list comprehension whose element expression may raise: the results in order,
      or the error of the first element that raises. */
  function Traverse<A, B, E>(f: A -> Result<B, E>, items: seq<A>): Result<seq<B>, E> {
    if items == [] then Ok([])
    else
      match f(items[0])
      case Err(e) => Err(e)
      case Ok(b) =>
        match Traverse(f, items[1..])
        case Err(e) => Err(e)
        case Ok(bs) => Ok([b] + bs)
  }

  lemma {:induction false} TraverseMeaning<A, B, E>(f: A -> Result<B, E>, items: seq<A>)
    ensures Traverse(f, items).Ok? <==> forall i :: 0 <= i < |items| ==> f(items[i]).Ok?
    ensures Traverse(f, items).Ok? ==>
              && |Traverse(f, items).value| == |items|
              && forall i :: 0 <= i < |items| ==> f(items[i]) == Ok(Traverse(f, items).value[i])
    ensures Traverse(f, items).Err? ==>
              exists i :: 0 <= i < |items| && f(items[i]) == Err(Traverse(f, items).error)
                          && forall j :: 0 <= j < i ==> f(items[j]).Ok?
  {
    if items != [] {
      var rest := items[1..];
      TraverseMeaning(f, rest);
      assert forall i :: 1 <= i < |items| ==> items[i] == rest[i - 1];
      if f(items[0]).Err? {
        assert f(items[0]) == Err(Traverse(f, items).error);
      } else if Traverse(f, rest).Err? {
        var k :| 0 <= k < |rest| && f(rest[k]) == Err(Traverse(f, rest).error)
                 && forall j :: 0 <= j < k ==> f(rest[j]).Ok?;
        assert items[k + 1] == rest[k];
        forall j | 0 <= j < k + 1 ensures f(items[j]).Ok? {
          if j > 0 { assert items[j] == rest[j - 1]; }
        }
      } else {
        var bs := Traverse(f, items).value;
        forall i | 0 <= i < |items| ensures f(items[i]) == Ok(bs[i]) {
          if i > 0 { assert items[i] == rest[i - 1] && bs[i] == Traverse(f, rest).value[i - 1]; }
        }
      }
    }
  }

  lemma {:induction false} TraverseAppend<A, B, E>(f: A -> Result<B, E>, items: seq<A>, item: A)
    requires Traverse(f, items).Ok?
    ensures Traverse(f, items + [item]) ==
            match f(item)
            case Err(e) => Err(e)
            case Ok(b) => Ok(Traverse(f, items).value + [b])
  {
    if items == [] {
      assert items + [item] == [item];
      assert Traverse(f, [item][1..]) == Ok([]);
      if f(item).Ok? {
        assert [f(item).value] + [] == [f(item).value] == [] + [f(item).value];
      }
    } else {
      assert (items + [item])[1..] == items[1..] + [item];
      TraverseAppend(f, items[1..], item);
      assert (items + [item])[0] == items[0];
      if f(item).Ok? {
        var b, bs := f(items[0]).value, Traverse(f, items[1..]).value;
        assert [b] + (bs + [f(item).value]) == ([b] + bs) + [f(item).value];
      }
    }
  }

  lemma {:induction false} TraverseFailsEarly<A, B, E>(f: A -> Result<B, E>, items: seq<A>, k: nat)
    requires k <= |items| && Traverse(f, items[..k]).Err?
    ensures Traverse(f, items) == Traverse(f, items[..k])
  {
    if k > 0 {
      assert items[..k][1..] == items[1..][..k - 1];
      if f(items[0]).Ok? { TraverseFailsEarly(f, items[1..], k - 1); }
    }
  }
}
