/** Optional values, results, and the exceptions the modelled Python code can raise. */
module Wrappers {

  datatype Option<T> = None | Some(value: T)

  /** The runtime errors of the modelled code, named after the condition that raises them. */
  datatype Error =
    | SampleLargerThanPopulation  // random.sample(population, k) with k > len(population)
    | ShapeMismatch               // np.concatenate / np.array on arrays whose shapes do not agree
    | NothingToConcatenate        // np.concatenate([]): "need at least one array to concatenate"
    | IndexOutOfBounds            // NumPy fancy indexing outside an axis
    | CannotReshape               // ndarray.reshape(-1, w) when the size is not a multiple of w

  datatype Result<T> = Ok(value: T) | Err(error: Error)
}
