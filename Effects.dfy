/**
 * What a view handler hands to, and gets back from, the outside world: the backend's
 * answer as a parameter, the notification it shows as a returned value, and the
 * list lookup (`Array.prototype.find` by id) the toggle handlers use.
 */
module Effects {
  import opened Nullable

  /** The outcome of a mutation request: the backend reported no error, or it did. */
  datatype Outcome = Succeeded | Failed

  /** The outcome of a `select`: rows (possibly `null`) or an error. */
  datatype FetchOutcome<T> = Fetched(data: Option<seq<T>>) | FetchFailed

  /** The toast a handler shows, if any. */
  datatype Notice = NoNotice | Success(text: string) | Failure(text: string)

  /** One `.order(column, { ascending })` clause of a `select`. */
  datatype Order = Order(column: string, ascending: bool)

  /** JavaScript truthiness of a `string | null` user id: `null` and `""` are both falsy. */
  predicate Known(userId: Option<string>) {
    userId.Some? && userId.value != ""
  }

  /** `i` is the first index of `xs` whose key is `id`. */
  ghost predicate IsFirst<T>(xs: seq<T>, key: T -> string, id: string, i: int) {
    0 <= i < |xs| && key(xs[i]) == id && forall j :: 0 <= j < i ==> key(xs[j]) != id
  }

  /**
   * `xs.find(x => key(x) === id)`: the first element whose key is `id`, or nothing when
   * no element has that key.
   */
  function Lookup<T>(xs: seq<T>, key: T -> string, id: string): Option<T> {
    if xs == [] then None
    else if key(xs[0]) == id then Some(xs[0])
    else Lookup(xs[1..], key, id)
  }

  /** `Lookup` finds nothing exactly when no key matches, and otherwise the first match. */
  lemma {:induction false} LookupFindsFirst<T>(xs: seq<T>, key: T -> string, id: string)
    ensures Lookup(xs, key, id).None? <==> forall i :: 0 <= i < |xs| ==> key(xs[i]) != id
    ensures Lookup(xs, key, id).Some? ==>
              exists i :: IsFirst(xs, key, id, i) && xs[i] == Lookup(xs, key, id).value
  {
    if xs == [] {
    } else if key(xs[0]) == id {
      assert IsFirst(xs, key, id, 0);
    } else {
      LookupFindsFirst(xs[1..], key, id);
      assert forall i :: 1 <= i < |xs| ==> xs[i] == xs[1..][i - 1];
      var r := Lookup(xs[1..], key, id);
      if r.Some? {
        var i :| IsFirst(xs[1..], key, id, i) && xs[1..][i] == r.value;
        assert IsFirst(xs, key, id, i + 1);
      }
    }
  }

  /** The search loop behind `find`. */
  method FindById<T>(xs: seq<T>, key: T -> string, id: string) returns (found: Option<T>)
    ensures found == Lookup(xs, key, id)
  {
    var i := 0;
    while i < |xs|
      invariant 0 <= i <= |xs|
      invariant Lookup(xs[i..], key, id) == Lookup(xs, key, id)
    {
      assert xs[i..][1..] == xs[i + 1..];
      if key(xs[i]) == id {
        return Some(xs[i]);
      }
      i := i + 1;
    }
    return None;
  }
}
