/** Failure-carrying values. Every exception the codec can throw becomes an `Error`
    value, so each operation returns a `Result` instead of requiring that it cannot fail. */
module Results {
  import opened Binary

  /** A nullable reference: `None` stands for C#'s `null`. */
  datatype Option<+T> = None | Some(value: T)

  /** The exceptions of the codec, one case per distinct cause. */
  datatype Error =
    | StringTooLong(length: nat)      // WriteString: more than 65535 UTF-8 bytes
    | UnnamedChild                    // a compound child without a name
    | NullChild                       // WithChild(null)
    | NotSupported                    // EmptyTag has no name and cannot be renamed
    | UnsupportedArrayType            // ArrayTag<T> over a type other than int, long, sbyte
    | NotOneType                      // ListTag<INbtTag>: "List must only be of one type"
    | DuplicateName(name: seq<byte>)  // Dictionary.Add with a key already present
    | NullKey                         // Dictionary.Add with a null key
    | UnknownType(code: byte)         // a type byte outside 0..12
    | EndOfData                       // a read past the end of the source bytes
    | NegativeLength(count: int)      // allocating an array of negative length
    | NotImplemented                  // NotImplementedException: GZip decompression, or FromJson on a token kind it does not handle
    | InvalidCast                     // a cast to the wrong tag class
    | OutOfRange(value: int)          // a narrowing conversion whose value does not fit
    | NullReference                   // a member access on a null tag
    | NullTag                         // GetBoolean on a null tag
    | Overflow                        // JToken.ToObject<int> of a number outside int

  /** The outcome of an operation that yields a value or throws. */
  datatype Result<+T> = Ok(value: T) | Err(error: Error) {
    predicate IsFailure() { Err? }

    function PropagateFailure<U>(): Result<U>
      requires Err?
    {
      Err(error)
    }

    function Extract(): T
      requires Ok?
    {
      value
    }
  }

  /** The values of a sequence of outcomes, or the first failure among them: what a loop that
      evaluates each in turn and stops at the first exception produces. */
  function Collect<T>(rs: seq<Result<T>>): (r: Result<seq<T>>)
    ensures r.Ok? <==> forall k :: 0 <= k < |rs| ==> rs[k].Ok?
    ensures r.Ok? ==> |r.value| == |rs| && forall k :: 0 <= k < |rs| ==> rs[k] == Ok(r.value[k])
    ensures r.Err? ==> exists k :: 0 <= k < |rs| && rs[k] == Err(r.error) && forall j :: 0 <= j < k ==> rs[j].Ok?
  {
    if rs == [] then Ok([])
    else if rs[0].Err? then Err(rs[0].error)
    else
      var rest := Collect(rs[1..]);
      assert forall j :: 1 <= j < |rs| ==> rs[j] == rs[1..][j - 1];
      if rest.Err? then
        assert exists k :: 1 <= k < |rs| && rs[k] == Err(rest.error) && forall j :: 1 <= j < k ==> rs[j].Ok? by {
          var k :| 0 <= k < |rs[1..]| && rs[1..][k] == Err(rest.error) && forall j :: 0 <= j < k ==> rs[1..][j].Ok?;
          assert rs[k + 1] == Err(rest.error);
        }
        Err(rest.error)
      else
        Ok([rs[0].value] + rest.value)
  }

  /** Successes at every index are what Collect returns. */
  lemma CollectSucceeds<T>(rs: seq<Result<T>>, vs: seq<T>)
    requires |vs| == |rs| && forall k :: 0 <= k < |rs| ==> rs[k] == Ok(vs[k])
    ensures Collect(rs) == Ok(vs)
  {
    var r := Collect(rs);
    assert r.Ok? && |r.value| == |vs|;
    assert forall k :: 0 <= k < |vs| ==> r.value[k] == vs[k];
    assert r.value == vs;
  }

  /** A failure at index `i` after successes at every earlier index is the failure Collect reports. */
  lemma CollectFails<T>(rs: seq<Result<T>>, i: nat)
    requires i < |rs| && rs[i].Err? && forall j :: 0 <= j < i ==> rs[j].Ok?
    ensures Collect(rs) == Err(rs[i].error)
  {
    var k :| 0 <= k < |rs| && rs[k] == Err(Collect(rs).error) && forall j :: 0 <= j < k ==> rs[j].Ok?;
    assert k == i;
  }

  /** The outcome of an operation that either completes or throws. */
  datatype Outcome = Pass | Fail(error: Error) {
    predicate IsFailure() { Fail? }

    function PropagateFailure(): Outcome
      requires Fail?
    {
      this
    }
  }
}
