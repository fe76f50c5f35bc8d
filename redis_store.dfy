/**
 * RedisService's fail-soft contract over an abstract key-value store: every
 * failure of a store command is caught, a read then comes back empty and a
 * write or an increment does nothing.
 */
module Store {
  import opened Wrappers
  import opened JavaObjects
  import Decimal

  /** A stored value and its time to live in nanoseconds (None: no expiry). */
  datatype Entry = Entry(value: Obj, ttl: Option<int>)

  type Data = map<string, Entry>

  /**
   * RedisService.get: the stored value, or empty for an absent key, a stored
   * null (which the deserialiser yields for an empty or JSON-null value) or a
   * failed command.
   */
  function Read(data: Data, down: bool, key: string): (r: Option<Obj>)
    ensures r.Some? <==> !down && key in data && data[key].value != NullRef
    ensures r.Some? ==> r.value == data[key].value
  {
    if down || key !in data || data[key].value.NullRef? then None else Some(data[key].value)
  }

  /**
   * One millisecond in nanoseconds. SET is sent with the duration in whole
   * milliseconds (or seconds), and Redis refuses an expiry that is not positive.
   */
  const MinExpiry: int := 1_000_000

  /**
   * RedisService.set(key, value, timeout): a failed command, including one
   * whose timeout is shorter than a millisecond, leaves the store as it was.
   */
  function Write(data: Data, down: bool, key: string, value: Obj, ttl: int): Data {
    if down || ttl < MinExpiry then data else data[key := Entry(value, Some(ttl))]
  }

  /**
   * RedisService.increment (INCRBY through StringRedisTemplate): the new count.
   * A negative delta throws before the store is touched; a failed command, a
   * value that is not an integer or a result beyond 64 bits reads as 0 and
   * changes nothing. The key's expiry is kept.
   */
  function Incr(data: Data, down: bool, key: string, delta: int): (Result<int, Exc>, Data) {
    if delta < 0 then (Err(IllegalArgument("Delta must be greater than 0")), data)
    else if down then (Ok(0), data)
    else if key !in data then (Ok(delta), data[key := Entry(Num(delta), None)])
    else match data[key].value
      case Num(n) =>
        if n + delta <= Decimal.LongMax then (Ok(n + delta), data[key := data[key].(value := Num(n + delta))])
        else (Ok(0), data)
      case _ => (Ok(0), data)
  }

  /**
   * A successful write is stored at its key with the TTL it was given, and a
   * non-null value is read back; a stored null reads as absent.
   */
  lemma ReadAfterWrite(data: Data, key: string, value: Obj, ttl: int)
    requires ttl >= MinExpiry
    ensures Write(data, false, key, value, ttl)[key] == Entry(value, Some(ttl))
    ensures Read(Write(data, false, key, value, ttl), false, key) == if value == NullRef then None else Some(value)
  {
  }

  /** A write or an increment touches no other key. */
  lemma OtherKeysUntouched(data: Data, down: bool, key: string, other: string, value: Obj, ttl: int, delta: int)
    requires other != key
    ensures other in Write(data, down, key, value, ttl) <==> other in data
    ensures other in data ==> Write(data, down, key, value, ttl)[other] == data[other]
    ensures other in Incr(data, down, key, delta).1 <==> other in data
    ensures other in data ==> Incr(data, down, key, delta).1[other] == data[other]
  {
  }

  /** A timeout shorter than a millisecond is refused, and nothing is stored. */
  lemma ShortExpiryRefused(data: Data, down: bool, key: string, value: Obj, ttl: int)
    requires ttl < MinExpiry
    ensures Write(data, down, key, value, ttl) == data
  {
  }

  /** With the store unreachable nothing is read and nothing changes. */
  lemma DownStoreIsInert(data: Data, key: string, value: Obj, ttl: int, delta: int)
    ensures Read(data, true, key) == None
    ensures Write(data, true, key, value, ttl) == data
    ensures Incr(data, true, key, delta).1 == data
  {
  }

  /** An increment of a missing or integral counter adds exactly delta. */
  lemma IncrAddsDelta(data: Data, key: string, delta: int)
    requires delta >= 0
    requires key in data ==> data[key].value.Num? && data[key].value.n + delta <= Decimal.LongMax
    ensures var before := if key in data then data[key].value.n else 0;
      Incr(data, false, key, delta).0 == Ok(before + delta)
      && Read(Incr(data, false, key, delta).1, false, key) == Some(Num(before + delta))
  {
  }

  /** The RedisService bean, reduced to the store it talks to. */
  class RedisService {
    var data: Data
    /** every command fails (a lost connection, a timeout); RedisService catches each failure */
    const down: bool

    constructor (initial: Data, down: bool)
      ensures data == initial && this.down == down
    {
      data := initial;
      this.down := down;
    }

    method Get(key: string) returns (r: Option<Obj>)
      ensures r == Read(data, down, key)
    {
      if down || key !in data {
        return None;
      }
      var value := data[key].value;
      if value == NullRef {
        return None;
      }
      return Some(value);
    }

    method Set(key: string, value: Obj, ttl: int)
      modifies this
      ensures data == Write(old(data), down, key, value, ttl)
    {
      if !down && ttl >= MinExpiry {
        data := data[key := Entry(value, Some(ttl))];
      }
    }

    method Increment(key: string, delta: int) returns (r: Result<int, Exc>)
      modifies this
      ensures (r, data) == Incr(old(data), down, key, delta)
    {
      if delta < 0 {
        return Err(IllegalArgument("Delta must be greater than 0"));
      }
      if down {
        return Ok(0);
      }
      if key !in data {
        data := data[key := Entry(Num(delta), None)];
        return Ok(delta);
      }
      var entry := data[key];
      if entry.value.Num? && entry.value.n + delta <= Decimal.LongMax {
        data := data[key := entry.(value := Num(entry.value.n + delta))];
        return Ok(entry.value.n + delta);
      }
      return Ok(0);
    }
  }
}
