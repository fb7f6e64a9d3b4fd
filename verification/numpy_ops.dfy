/** The handful of numpy array operations the indicators build their raw
    signals from, with numpy's failure behaviour made explicit.

    Arrays are sequences. Elementwise operators broadcast a length-1 operand
    and raise ValueError on any other length mismatch; integer fancy indexing
    raises IndexError on an index past the end; a boolean mask index must have
    the array's length or IndexError is raised.
 */
module NumpyOps {
  import opened Wrappers

  /** Start position of the Python slice a[k:] on a sequence of length n. */
  function SliceStart(n: nat, k: int): (s: nat)
    ensures s <= n
  {
    if k >= 0 then (if k <= n then k else n)
    else if n + k >= 0 then n + k
    else 0
  }

  /** The Python slice a[k:], negative k counting from the end. */
  function Drop<T>(a: seq<T>, k: int): (r: seq<T>)
    ensures 0 <= k <= |a| ==> |r| == |a| - k && forall i :: 0 <= i < |r| ==> r[i] == a[i + k]
    ensures k > |a| ==> r == []
    ensures k < 0 ==> |r| == (if |a| + k >= 0 then -k else |a|)
  {
    a[SliceStart(|a|, k)..]
  }

  function Zeros(n: nat): (r: seq<int>)
    ensures |r| == n && forall i :: 0 <= i < n ==> r[i] == 0
  {
    seq(n, i => 0)
  }

  /** An elementwise binary operator under numpy broadcasting rules. */
  function Broadcast<A, B, C>(a: seq<A>, b: seq<B>, f: (A, B) -> C): (r: Result<seq<C>>)
    ensures r.Ok? <==> (|a| == |b| || |a| == 1 || |b| == 1)
    ensures r.Err? ==> r.error == ValueError
    ensures r.Ok? && |a| == |b| ==>
      |r.value| == |a| && forall i :: 0 <= i < |a| ==> r.value[i] == f(a[i], b[i])
    ensures r.Ok? && |a| != |b| ==> |r.value| == (if |a| == 1 then |b| else |a|)
  {
    if |a| == |b| then Ok(seq(|a|, i requires 0 <= i < |a| => f(a[i], b[i])))
    else if |a| == 1 then Ok(seq(|b|, i requires 0 <= i < |b| => f(a[0], b[i])))
    else if |b| == 1 then Ok(seq(|a|, i requires 0 <= i < |a| => f(a[i], b[0])))
    else Err(ValueError)
  }

  /** a > b elementwise. */
  function Gt(a: seq<real>, b: seq<real>): Result<seq<bool>>
  {
    Broadcast(a, b, (x: real, y: real) => x > y)
  }

  /** mask & mask elementwise. */
  function And(a: seq<bool>, b: seq<bool>): Result<seq<bool>>
  {
    Broadcast(a, b, (x: bool, y: bool) => x && y)
  }

  /** a > c against a scalar: never fails. */
  function GtScalar(a: seq<real>, c: real): (r: seq<bool>)
    ensures |r| == |a| && forall i :: 0 <= i < |a| ==> (r[i] <==> a[i] > c)
  {
    seq(|a|, i requires 0 <= i < |a| => a[i] > c)
  }

  /** c > a against a scalar: never fails. */
  function LtScalar(a: seq<real>, c: real): (r: seq<bool>)
    ensures |r| == |a| && forall i :: 0 <= i < |a| ==> (r[i] <==> a[i] < c)
  {
    seq(|a|, i requires 0 <= i < |a| => a[i] < c)
  }

  /** a == v on an int array. */
  function EqMask(a: seq<int>, v: int): (r: seq<bool>)
    ensures |r| == |a| && forall i :: 0 <= i < |a| ==> (r[i] <==> a[i] == v)
  {
    seq(|a|, i requires 0 <= i < |a| => a[i] == v)
  }

  /** a[np.where(mask)] = v: the true positions of the mask are written; a true
      position past the end of a raises IndexError. */
  function AssignWhere(a: seq<int>, mask: seq<bool>, v: int): (r: Result<seq<int>>)
    ensures r.Err? <==> exists i :: |a| <= i < |mask| && mask[i]
    ensures r.Err? ==> r.error == IndexError
    ensures r.Ok? ==> |r.value| == |a|
    ensures r.Ok? ==>
      forall i :: 0 <= i < |a| ==> r.value[i] == (if i < |mask| && mask[i] then v else a[i])
  {
    if exists i :: |a| <= i < |mask| && mask[i] then Err(IndexError)
    else Ok(seq(|a|, i requires 0 <= i < |a| => if i < |mask| && mask[i] then v else a[i]))
  }

  /** a[mask] = v with a boolean mask, which must have a's length. */
  function AssignMask(a: seq<int>, mask: seq<bool>, v: int): (r: Result<seq<int>>)
    ensures r.Err? <==> |mask| != |a|
    ensures r.Err? ==> r.error == IndexError
    ensures r.Ok? ==> |r.value| == |a|
    ensures r.Ok? ==> forall i :: 0 <= i < |a| ==> r.value[i] == (if mask[i] then v else a[i])
  {
    if |mask| != |a| then Err(IndexError)
    else Ok(seq(|a|, i requires 0 <= i < |a| => if mask[i] then v else a[i]))
  }

  /** a[i:] += d on a float array. */
  function AddFrom(a: seq<real>, i: nat, d: real): (r: seq<real>)
    requires i <= |a|
    ensures |r| == |a|
    ensures forall k :: 0 <= k < i ==> r[k] == a[k]
    ensures forall k :: i <= k < |a| ==> r[k] == a[k] + d
  {
    seq(|a|, k requires 0 <= k < |a| => if k < i then a[k] else a[k] + d)
  }

  /** a[i:] = v on a float array. */
  function FillFrom(a: seq<real>, i: nat, v: real): (r: seq<real>)
    requires i <= |a|
    ensures |r| == |a|
    ensures forall k :: 0 <= k < i ==> r[k] == a[k]
    ensures forall k :: i <= k < |a| ==> r[k] == v
  {
    seq(|a|, k requires 0 <= k < |a| => if k < i then a[k] else v)
  }
}
