/** What the ledger keeps for a key: buckets per model, per day and per quota
    period. */
module Usage {
  import opened Bytes

  /** The aggregate of one key, model and day or period. Counters only grow. */
  datatype Bucket = Bucket(
    calls: int, unpriced: int, input: int, cacheRead: int, cacheWrite: int, output: int,
    charged: int, readCost: int, writeCost: int)
  {
    function Plus(b: Bucket): Bucket {
      Bucket(calls + b.calls, unpriced + b.unpriced, input + b.input, cacheRead + b.cacheRead,
             cacheWrite + b.cacheWrite, output + b.output, charged + b.charged, readCost + b.readCost,
             writeCost + b.writeCost)
    }
  }

  const NOTHING := Bucket(0, 0, 0, 0, 0, 0, 0, 0, 0)

  /** Model name to bucket. */
  type Models = map<string, Bucket>

  /** Date to models. */
  type Days = map<int, Models>

  function BucketOf(models: Models, model: string): Bucket { if model in models then models[model] else NOTHING }

  /** Adds to one model's bucket. */
  function Booked(models: Models, model: string, delta: Bucket): Models {
    models[model := BucketOf(models, model).Plus(delta)]
  }

  function ModelsOf(days: Days, date: int): Models { if date in days then days[date] else map[] }

  function BookedOn(days: Days, date: int, model: string, delta: Bucket): Days {
    days[date := Booked(ModelsOf(days, date), model, delta)]
  }

  /** Counters that never go below zero. */
  predicate Sound(b: Bucket) {
    b.calls >= 0 && b.unpriced >= 0 && b.input >= 0 && b.cacheRead >= 0 && b.cacheWrite >= 0 && b.output >= 0 &&
    b.charged >= 0 && b.readCost >= 0 && b.writeCost >= 0
  }

  /** Adding buckets is a sum: the order and the grouping do not matter, and
      nothing is lost or moved between counters. */
  lemma PlusIsSum(a: Bucket, b: Bucket, c: Bucket)
    ensures a.Plus(NOTHING) == a && NOTHING.Plus(a) == a
    ensures a.Plus(b) == b.Plus(a) && a.Plus(b).Plus(c) == a.Plus(b.Plus(c))
    ensures Sound(a) && Sound(b) ==> Sound(a.Plus(b))
  {}

  /** Booking order does not matter. */
  lemma BookingCommutes(models: Models, a: string, da: Bucket, b: string, db: Bucket)
    ensures Booked(Booked(models, a, da), b, db) == Booked(Booked(models, b, db), a, da)
  {
    var one, other := Booked(Booked(models, a, da), b, db), Booked(Booked(models, b, db), a, da);
    assert one.Keys == other.Keys;
    forall m | m in one ensures one[m] == other[m] {}
  }
}
