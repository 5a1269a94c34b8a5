/** Go slices of pods: a window on an array that appending may share or replace. */
module Slices {
  import opened PodModel

  datatype Slice = Slice(arr: array<Pod>, len: nat)

  ghost function Contents(s: Slice): seq<Pod>
    requires s.len <= s.arr.Length
    reads s.arr
  {
    s.arr[..s.len]
  }

  /**
   Appending writes in place when there is spare capacity, so another slice over the same array may see the
   write; otherwise it copies to a new array, with as much spare capacity as the runtime likes.
   */
  method Append(s: Slice, pod: Pod) returns (r: Slice)
    requires s.len <= s.arr.Length
    modifies s.arr
    ensures r.len == s.len + 1 <= r.arr.Length && Contents(r) == old(Contents(s)) + [pod]
    ensures if s.len < s.arr.Length then r.arr == s.arr else fresh(r.arr)
    ensures s.arr[..] == if s.len < s.arr.Length then old(s.arr[..])[s.len := pod] else old(s.arr[..])
  {
    if s.len < s.arr.Length {
      s.arr[s.len] := pod;
      return Slice(s.arr, s.len + 1);
    }
    var spare :| spare >= 0;
    var arr := new Pod[s.len + 1 + spare](_ => pod);
    for i := 0 to s.len
      invariant s.arr[..] == old(s.arr[..])
      invariant arr[..i] == s.arr[..i]
      invariant forall j | i <= j < arr.Length :: arr[j] == pod
    {
      arr[i] := s.arr[i];
    }
    return Slice(arr, s.len + 1);
  }
}
