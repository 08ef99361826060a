/** Option, the two fatal errors of the aggregator, and the result types that carry them. */
module Results {

  datatype Option<+T> = None | Some(value: T)

  /** The failures the aggregator raises instead of producing a chart. */
  datatype Error =
      /** `numberOfRuns` was zero when an entry was averaged (a ZeroDivisionError) */
    | ZeroDivision
      /** query `query` has no metric `metric` (a KeyError naming the metric) */
    | MissingMetric(query: string, metric: string)

  datatype Result<+T> = Ok(value: T) | Err(error: Error)

  /** The result of a step that produces no value, only success or an error. */
  datatype Outcome = Pass | Fail(error: Error)
}
