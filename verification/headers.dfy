/** Case-insensitive header lookup, as aiohttp's `CIMultiDict.get` and
    Starlette's `Headers.get` perform it: header names compare without regard
    to ASCII case, and of several fields with the same name the first wins. */
module Headers {
  import opened Wrappers
  import opened Strings

  /** An HTTP error response a server raises: status code and detail text. */
  datatype HttpException = HttpException(status: nat, detail: string)

  /** Header fields in the order they arrived. */
  type HeaderList = seq<(string, string)>

  predicate SameName(a: string, b: string) {
    Lower(a) == Lower(b)
  }

  /** Index of the first field at or after `from` whose name is `name`. */
  function FindField(hs: HeaderList, name: string, from: nat): (r: Option<nat>)
    requires from <= |hs|
    ensures r.Some? ==> from <= r.value < |hs| && SameName(hs[r.value].0, name)
    ensures r.Some? ==> forall j :: from <= j < r.value ==> !SameName(hs[j].0, name)
    ensures r.None? ==> forall j :: from <= j < |hs| ==> !SameName(hs[j].0, name)
    decreases |hs| - from
  {
    if from == |hs| then None
    else if SameName(hs[from].0, name) then Some(from)
    else FindField(hs, name, from + 1)
  }

  /** `headers.get(name)`: the value of the first field named `name`, in any case. */
  function Lookup(hs: HeaderList, name: string): (r: Option<string>)
    ensures r.Some? <==> exists j :: 0 <= j < |hs| && SameName(hs[j].0, name)
    ensures r.Some? ==> exists j :: 0 <= j < |hs| && SameName(hs[j].0, name) && hs[j].1 == r.value
                                   && forall k :: 0 <= k < j ==> !SameName(hs[k].0, name)
  {
    match FindField(hs, name, 0)
    case Some(j) => Some(hs[j].1)
    case None => None
  }

  /** Two spellings of one header name that differ only in case find the same field. */
  lemma LookupIgnoresCase(hs: HeaderList, a: string, b: string)
    requires SameName(a, b)
    ensures Lookup(hs, a) == Lookup(hs, b)
  {
    var fa := FindField(hs, a, 0);
    var fb := FindField(hs, b, 0);
    if fa.Some? && fb.Some? {
      if fa.value < fb.value {
        assert SameName(hs[fa.value].0, b);
      } else if fb.value < fa.value {
        assert SameName(hs[fb.value].0, a);
      }
    }
  }
}
