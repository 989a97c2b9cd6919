/** Values shared by every component of the pipeline. */
module Domain {
  datatype Option<+T> = None | Some(value: T)

  const MAX_INT32: int := 0x7fff_ffff
  const MAX_INT64: int := 0x7fff_ffff_ffff_ffff

  /** A Go float64: the finite ones are modelled as reals (rounding is not modelled). */
  datatype Number = Finite(value: real) | NotANumber | Infinite(positive: bool)

  /** The primary key of metric_points. */
  datatype PointKey = PointKey(task: string, name: string, step: int, ts: int)

  /** One key-value pair of one sample, as the worker expands it; `ts` is in Unix milliseconds. */
  datatype MetricPoint = MetricPoint(id: PointKey, value: Number)

  /** The keys of a sequence of points. */
  function KeysOf(points: seq<MetricPoint>): set<PointKey> {
    set p | p in points :: p.id
  }
}
