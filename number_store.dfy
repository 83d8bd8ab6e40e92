/**
 * The counter service: a store of submitted integers with an endpoint that
 * appends one (`POST /numbers`) and one that reports their mean
 * (`GET /average`). The service's lock is not modelled: the model is
 * single-threaded, so every call runs alone.
 */
module NumberStore {
  import opened Wrappers
  import Stats

  /** The body of a successful `POST /numbers` answer. */
  datatype AddResponse = AddResponse(status: string, number: int)

  /** An HTTPException: a status code and a detail message. */
  datatype HttpError = HttpError(statusCode: int, detail: string)

  /** The integers as exact reals (Python's `statistics.mean` of ints is exact). */
  function AsReals(xs: seq<int>): (r: seq<real>)
    ensures |r| == |xs|
    ensures forall i :: 0 <= i < |xs| ==> r[i] == xs[i] as real
  {
    seq(|xs|, i requires 0 <= i < |xs| => xs[i] as real)
  }

  /** The service state: the submitted numbers, oldest first. */
  class Store {
    var numbers: seq<int>

    /** The service starts with no numbers. */
    constructor ()
      ensures numbers == []
    {
      numbers := [];
    }

    /**
     * Appends the submitted number at the end, leaving every earlier entry
     * as it was, and echoes it back with status "success".
     */
    method AddNumber(number: int) returns (response: AddResponse)
      modifies this
      ensures numbers == old(numbers) + [number]
      ensures |numbers| == |old(numbers)| + 1
      ensures forall i :: 0 <= i < |old(numbers)| ==> numbers[i] == old(numbers)[i]
      ensures numbers[|numbers| - 1] == number
      ensures response == AddResponse("success", number)
    {
      numbers := numbers + [number];
      response := AddResponse("success", number);
    }

    /**
     * The mean of the submitted numbers, or a 404 error "No numbers
     * submitted" when there are none. Reads the store and changes nothing.
     */
    method GetAverage() returns (r: Result<real, HttpError>)
      ensures numbers == [] <==> r.Err?
      ensures numbers == [] ==> r == Err(HttpError(404, "No numbers submitted"))
      ensures numbers != [] ==> r == Ok(Stats.Mean(AsReals(numbers)))
      ensures numbers != [] ==>
        Stats.Min(AsReals(numbers)) <= r.value <= Stats.Max(AsReals(numbers))
    {
      if numbers == [] {
        return Err(HttpError(404, "No numbers submitted"));
      }
      var values := AsReals(numbers);
      Stats.MeanBetweenMinMax(values);
      r := Ok(Stats.Mean(values));
    }
  }
}
