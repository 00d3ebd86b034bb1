/**
 * The status record of health.go: a status plus an open info map, updated
 * in place by the setters and AddInfo, each of which returns the record
 * itself for chaining.
 */
module HealthRecord {

  /**
   * The values of Go's `status` string type. Up, Down, OutOfService and
   * Unknown are the four named constants; Unset is the type's zero value "",
   * which only a bare struct literal `health{}` carries (NewHealth never
   * leaves it there).
   */
  datatype Status = Up | Down | OutOfService | Unknown | Unset

  /** The string each status holds, which is what the JSON output shows. */
  function StatusString(s: Status): (r: string)
    ensures r == "" <==> s == Unset
  {
    match s
    case Up => "UP"
    case Down => "DOWN"
    case OutOfService => "OUT OF SERVICE"
    case Unknown => "UNKNOWN"
    case Unset => ""
  }

  /** Distinct statuses render as distinct strings, so the JSON output identifies the status. */
  lemma StatusStringInjective(s: Status, t: Status)
    ensures StatusString(s) == StatusString(t) <==> s == t
  {
  }

  /**
   * The info values (Go's interface{}): untyped nil, the scalar kinds the
   * repository stores, and a nested status record, which is how the
   * composite checker stores each probe's result.
   */
  datatype Value =
    | Nil
    | Str(s: string)
    | Int(i: int)
    | Bool(b: bool)
    | Nested(record: Snapshot)

  /** The value of a status record at one moment. */
  datatype Snapshot = Snapshot(status: Status, info: map<string, Value>)

  /** Go's `health` struct. */
  class Health {
    var status: Status
    var info: map<string, Value>
    /** False while `info` is Go's nil map, which reads as empty. */
    var infoAllocated: bool

    ghost predicate Valid()
      reads this
    {
      !infoAllocated ==> info == map[]
    }

    /** The record's current value. */
    function View(): (snap: Snapshot)
      reads this
    {
      Snapshot(status, info)
    }

    /** NewHealth: an allocated empty info map, then Unknown(). */
    constructor New()
      ensures Valid()
      ensures status == Status.Unknown && info == map[] && infoAllocated
    {
      info := map[];
      infoAllocated := true;
      new;
      var _ := Unknown();
    }

    /** The zero value `health{}`: nil info map and the empty status string. */
    constructor Zero()
      ensures Valid()
      ensures status == Status.Unset && info == map[] && !infoAllocated
    {
      status := Status.Unset;
      info := map[];
      infoAllocated := false;
    }

    /** Compares the status string with the constant UNKNOWN. */
    predicate IsUnknown(): (r: bool)
      reads this
      ensures r <==> StatusString(status) == "UNKNOWN"
    {
      status == Status.Unknown
    }

    /** Compares the status string with the constant UP. */
    predicate IsUp(): (r: bool)
      reads this
      ensures r <==> StatusString(status) == "UP"
    {
      status == Status.Up
    }

    /** Compares the status string with the constant DOWN. */
    predicate IsDown(): (r: bool)
      reads this
      ensures r <==> StatusString(status) == "DOWN"
    {
      status == Status.Down
    }

    /** Compares the status string with the constant OUT OF SERVICE. */
    predicate IsOutOfService(): (r: bool)
      reads this
      ensures r <==> StatusString(status) == "OUT OF SERVICE"
    {
      status == Status.OutOfService
    }

    method Down() returns (self: Health)
      modifies this
      ensures self == this && status == Status.Down
      ensures info == old(info) && infoAllocated == old(infoAllocated)
    {
      status := Status.Down;
      self := this;
    }

    method OutOfService() returns (self: Health)
      modifies this
      ensures self == this && status == Status.OutOfService
      ensures info == old(info) && infoAllocated == old(infoAllocated)
    {
      status := Status.OutOfService;
      self := this;
    }

    method Unknown() returns (self: Health)
      modifies this
      ensures self == this && status == Status.Unknown
      ensures info == old(info) && infoAllocated == old(infoAllocated)
    {
      status := Status.Unknown;
      self := this;
    }

    method Up() returns (self: Health)
      modifies this
      ensures self == this && status == Status.Up
      ensures info == old(info) && infoAllocated == old(infoAllocated)
    {
      status := Status.Up;
      self := this;
    }

    /** Reading a key: the stored value, or nil when the key is absent (also on a nil map). */
    function GetInfo(key: string): (v: Value)
      reads this
      ensures key !in info ==> v == Nil
      ensures key in info ==> v == info[key]
    {
      if key in info then info[key] else Nil
    }

    /**
     * Stores one entry, allocating the map first if it is nil. Afterwards the
     * key reads back as the value and every other key reads as before.
     */
    method AddInfo(key: string, value: Value) returns (self: Health)
      requires Valid()
      modifies this
      ensures Valid() && self == this && infoAllocated
      ensures info == old(info)[key := value] && status == old(status)
      ensures GetInfo(key) == value
      ensures forall k :: k != key ==> GetInfo(k) == old(GetInfo(k))
    {
      if !infoAllocated {
        info := map[];
        infoAllocated := true;
      }
      info := info[key := value];
      self := this;
    }

    /**
     * The map handed to the JSON encoder: every info entry copied, then the
     * key "status" set to the live status string, overriding any info entry
     * of that name.
     */
    method MarshalJSON() returns (data: map<string, Value>)
      ensures data.Keys == info.Keys + {"status"}
      ensures data["status"] == Str(StatusString(status))
      ensures forall k :: k in info && k != "status" ==> data[k] == info[k]
    {
      data := map[];
      var keys := info.Keys;
      while keys != {}
        invariant keys <= info.Keys
        invariant data == map k | k in info.Keys - keys :: info[k]
        decreases keys
      {
        var k :| k in keys;
        data := data[k := info[k]];
        keys := keys - {k};
      }
      data := data["status" := Str(StatusString(status))];
    }
  }

  /**
   * Exactly one of the four predicates holds precisely when the record holds
   * one of the four named statuses; on the zero value none holds.
   */
  lemma ExactlyOnePredicate(h: Health)
    ensures (if h.IsUp() then 1 else 0) + (if h.IsDown() then 1 else 0)
            + (if h.IsOutOfService() then 1 else 0) + (if h.IsUnknown() then 1 else 0) <= 1
    ensures h.IsUp() || h.IsDown() || h.IsOutOfService() || h.IsUnknown() <==> h.status != Unset
  {
  }

  /** A fresh record is UNKNOWN and nothing else. */
  method NewHealthScenario() returns (unknown: bool, up: bool, down: bool, outOfService: bool)
    ensures unknown && !up && !down && !outOfService
  {
    var h := new Health.New();
    unknown, up, down, outOfService := h.IsUnknown(), h.IsUp(), h.IsDown(), h.IsOutOfService();
  }

  /** A later setter overrides an earlier one: Up then Down leaves DOWN. */
  method UpThenDownScenario() returns (down: bool)
    ensures down
  {
    var h := new Health.New();
    var _ := h.Up();
    var _ := h.Down();
    down := h.IsDown();
  }

  /** An info entry named "status" cannot spoof the status: UP marshals as {"status":"UP"}. */
  method MarshalStatusScenario() returns (data: map<string, Value>)
    ensures data == map["status" := Str("UP")]
  {
    var h := new Health.New();
    var _ := h.Up();
    var _ := h.AddInfo("status", Str("Should not render"));
    data := h.MarshalJSON();
  }

  /** AddInfo on the zero value allocates the map and then GetInfo finds the entry. */
  method AddInfoNilMapScenario() returns (mapMade: bool, v: Value)
    ensures mapMade && v == Str("value")
  {
    var h := new Health.Zero();
    var _ := h.AddInfo("key", Str("value"));
    mapMade, v := h.infoAllocated, h.GetInfo("key");
  }

  /** GetInfo on the nil map of the zero value reads nil rather than failing. */
  method GetInfoNilMapScenario() returns (v: Value)
    ensures v == Nil
  {
    var h := new Health.Zero();
    v := h.GetInfo("key");
  }
}
