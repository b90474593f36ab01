/** Reading all sensors at once and reading one sensor: both go through the same four register blocks, but the first
    fills one map block by block and the second looks the block of its sensor up in a table built beforehand. */
module SensorReads {
  import opened Options

  type Name = string
  type Byte = nat

  datatype Value = Number(n: real) | Text(t: string)
  datatype SensorValue = SensorValue(value: Value, unit: string, name: string)

  /** How a sensor is computed from the bytes of its block. */
  datatype Definition = Definition(name: string, unit: string, calculator: seq<Byte> -> Value)
  type Registry = map<Name, Definition>

  datatype ReadResult = Bytes(data: seq<Byte>) | IllegalDataAddress | OtherError

  /** What the inverter answers to a read of a number of registers from some address. */
  type Image = (nat, nat) -> ReadResult

  datatype Block = Main | Battery | Meter | Mppt

  datatype Registries = Registries(main: Registry, battery: Registry, meter: Registry, mppt: Registry) {
    function Of(b: Block): Registry {
      match b case Main => main case Battery => battery case Meter => meter case Mppt => mppt
    }
  }

  const METER_COUNT := 125
  const METER_FALLBACK1 := 58
  const METER_FALLBACK2 := 45

  function Offset(b: Block): nat {
    match b case Main => 35100 case Battery => 37000 case Meter => 36000 case Mppt => 35301
  }

  function Count(b: Block): nat {
    match b case Main => 125 case Battery => 24 case Meter => METER_COUNT case Mppt => 61
  }

  // ---------------------------------------------------------------- what a block gives

  /** The counts to try for a block: the next one when the inverter has no registers there. */
  function Counts(b: Block): seq<nat> {
    if b.Meter? then [METER_COUNT, METER_FALLBACK1, METER_FALLBACK2] else [Count(b)]
  }

  /** The answer to the first count that is not refused as illegal, if there is one. */
  function Attempt(image: Image, offset: nat, counts: seq<nat>): ReadResult {
    if counts == [] then IllegalDataAddress
    else
      var r := image(offset, counts[0]);
      if r.IllegalDataAddress? then Attempt(image, offset, counts[1..]) else r
  }

  function Read(image: Image, b: Block): ReadResult {
    Attempt(image, Offset(b), Counts(b))
  }

  function Compute(d: Definition, data: seq<Byte>): SensorValue {
    SensorValue(d.calculator(data), d.unit, d.name)
  }

  /** The sensors of a block that can be read, and nothing otherwise. */
  function Computed(registry: Registry, r: ReadResult): map<Name, SensorValue> {
    if r.Bytes? then map name | name in registry :: Compute(registry[name], r.data) else map[]
  }

  function Values(regs: Registries, image: Image, b: Block): map<Name, SensorValue> {
    Computed(regs.Of(b), Read(image, b))
  }

  /** The value is the one computed for this sensor from the bytes of a block that has it and can be read. */
  ghost predicate Comes(regs: Registries, image: Image, b: Block, name: Name, v: SensorValue) {
    && name in regs.Of(b) && Read(image, b).Bytes?
    && var d := regs.Of(b)[name];
      v.value == d.calculator(Read(image, b).data) && v.unit == d.unit && v.name == d.name
  }

  lemma AllCome(regs: Registries, image: Image, name: Name) returns (b: Block)
    requires name in All(regs, image)
    ensures Comes(regs, image, b, name, All(regs, image)[name])
  {
    OnlyIn(Values(regs, image, Main), Values(regs, image, Battery), Values(regs, image, Meter),
           Values(regs, image, Mppt), name);
    b := if name in Values(regs, image, Mppt) then Mppt
      else if name in Values(regs, image, Meter) then Meter
      else if name in Values(regs, image, Battery) then Battery else Main;
  }

  lemma AttemptMeter(image: Image)
    ensures var o := Offset(Meter);
      var r0, r1 := image(o, METER_COUNT), image(o, METER_FALLBACK1);
      Read(image, Meter) ==
        if !r0.IllegalDataAddress? then r0 else if !r1.IllegalDataAddress? then r1 else image(o, METER_FALLBACK2)
  {
    var o, counts := Offset(Meter), Counts(Meter);
    assert counts[1..] == [METER_FALLBACK1, METER_FALLBACK2] && counts[1..][1..] == [METER_FALLBACK2];
    assert Attempt(image, o, [METER_FALLBACK2]) == image(o, METER_FALLBACK2) by {
      assert [METER_FALLBACK2][1..] == [];
    }
    assert Attempt(image, o, counts[1..]) ==
      var r1 := image(o, METER_FALLBACK1);
      if r1.IllegalDataAddress? then Attempt(image, o, counts[1..][1..]) else r1;
  }

  lemma AttemptOther(image: Image, b: Block)
    requires !b.Meter?
    ensures Read(image, b) == image(Offset(b), Count(b))
  {
    assert Counts(b)[1..] == [];
  }

  /** Where the blocks are, and how many registers they have. */
  lemma BlocksRead(image: Image)
    ensures Read(image, Main) == image(35100, 125)
    ensures Read(image, Battery) == image(37000, 24)
    ensures Read(image, Mppt) == image(35301, 61)
    ensures Read(image, Meter) ==
      if !image(36000, 125).IllegalDataAddress? then image(36000, 125)
      else if !image(36000, 58).IllegalDataAddress? then image(36000, 58)
      else image(36000, 45)
  {
    AttemptOther(image, Main);
    AttemptOther(image, Battery);
    AttemptOther(image, Mppt);
    AttemptMeter(image);
  }

  // ---------------------------------------------------------------- all sensors

  function Part(registry: Registry, data: seq<Byte>, names: set<Name>): map<Name, SensorValue>
    requires names <= registry.Keys
  {
    map name | name in names :: Compute(registry[name], data)
  }

  lemma FillOneMore(
    results: map<Name, SensorValue>, registry: Registry, data: seq<Byte>, names: set<Name>, name: Name,
    more: set<Name>)
    requires names <= registry.Keys && name in registry && more == names + {name}
    ensures results + Part(registry, data, more) ==
      (results + Part(registry, data, names))[name := Compute(registry[name], data)]
  {
  }

  /** Sets results[name] for every sensor of a block that was read, in any order. */
  method Fill(results: map<Name, SensorValue>, registry: Registry, r: ReadResult)
    returns (filled: map<Name, SensorValue>)
    ensures filled == results + Computed(registry, r)
  {
    filled := results;
    if r.Bytes? {
      filled := FillAll(results, registry, r.data);
    }
  }

  method FillAll(results: map<Name, SensorValue>, registry: Registry, data: seq<Byte>)
    returns (filled: map<Name, SensorValue>)
    ensures filled == results + Part(registry, data, registry.Keys)
  {
    filled := results;
    var todo := registry.Keys;
    ghost var names := {};
    while todo != {}
      invariant todo <= registry.Keys && names == registry.Keys - todo
      invariant filled == results + Part(registry, data, names)
      decreases |todo|
    {
      var name :| name in todo;
      FillOneMore(results, registry, data, names, name, names + {name});
      todo, names := todo - {name}, names + {name};
      filled := filled[name := Compute(registry[name], data)];
    }
    assert names == registry.Keys;
  }

  /** Fails only when the main block cannot be read; other blocks that cannot be are skipped. */
  method GetSensors(regs: Registries, image: Image) returns (r: Option<map<Name, SensorValue>>)
    ensures r.None? <==> !Read(image, Main).Bytes?
    ensures r.Some? ==> r.value == All(regs, image)
    ensures r.Some? ==> forall name :: name in r.value ==> exists b :: Comes(regs, image, b, name, r.value[name])
  {
    AttemptOther(image, Main);
    AttemptOther(image, Battery);
    AttemptOther(image, Mppt);
    var data := image(Offset(Main), Count(Main));
    if !data.Bytes? {
      return None;
    }
    var results := Fill(map[], regs.main, data);
    assert results == Values(regs, image, Main);
    data := image(Offset(Battery), Count(Battery));
    results := Fill(results, regs.battery, data);
    data := ReadMeter(image);
    results := Fill(results, regs.meter, data);
    data := image(Offset(Mppt), Count(Mppt));
    results := Fill(results, regs.mppt, data);
    r := Some(results);
    forall name | name in results ensures exists b :: Comes(regs, image, b, name, results[name]) {
      var b := AllCome(regs, image, name);
    }
  }

  method ReadMeter(image: Image) returns (data: ReadResult)
    ensures data == Read(image, Meter)
  {
    AttemptMeter(image);
    data := image(Offset(Meter), METER_COUNT);
    if data.IllegalDataAddress? {
      data := image(Offset(Meter), METER_FALLBACK1);
    }
    if data.IllegalDataAddress? {
      data := image(Offset(Meter), METER_FALLBACK2);
    }
  }

  /** Later blocks win. */
  function All(regs: Registries, image: Image): map<Name, SensorValue> {
    Values(regs, image, Main) + Values(regs, image, Battery) + Values(regs, image, Meter) + Values(regs, image, Mppt)
  }

  // ---------------------------------------------------------------- one sensor

  datatype SensorBlock = SensorBlock(block: Block, startReg: nat, readQty: nat, def: Definition)
  type Lookup = map<Name, SensorBlock>

  /** The last block that has a sensor of this name. */
  function Home(regs: Registries, name: Name): (home: Option<Block>)
    ensures home.Some? ==> name in regs.Of(home.value)
    ensures home.None? ==> forall b :: name !in regs.Of(b)
  {
    if name in regs.mppt then Some(Mppt)
    else if name in regs.meter then Some(Meter)
    else if name in regs.battery then Some(Battery)
    else if name in regs.main then Some(Main)
    else None
  }

  function Located(registry: Registry, b: Block): Lookup {
    map name | name in registry :: SensorBlock(b, Offset(b), Count(b), registry[name])
  }

  ghost predicate LooksUp(regs: Registries, lookup: Lookup, name: Name) {
    var home := Home(regs, name);
    if home.None? then name !in lookup
    else
      var b := home.value;
      name in lookup && lookup[name] == SensorBlock(b, Offset(b), Count(b), regs.Of(b)[name])
  }

  ghost predicate IsLookup(regs: Registries, lookup: Lookup) {
    forall name :: LooksUp(regs, lookup, name)
  }

  method Register(lookup: Lookup, registry: Registry, b: Block) returns (more: Lookup)
    ensures more == lookup + Located(registry, b)
  {
    more := lookup;
    var todo := registry.Keys;
    while todo != {}
      invariant todo <= registry.Keys
      invariant more == lookup +
        map name | name in registry.Keys - todo :: SensorBlock(b, Offset(b), Count(b), registry[name])
      decreases |todo|
    {
      var name :| name in todo;
      todo := todo - {name};
      more := more[name := SensorBlock(b, Offset(b), Count(b), registry[name])];
    }
    assert registry.Keys - todo == registry.Keys;
  }

  method BuildLookup(regs: Registries) returns (lookup: Lookup)
    ensures IsLookup(regs, lookup)
  {
    lookup := Register(map[], regs.main, Main);
    lookup := Register(lookup, regs.battery, Battery);
    lookup := Register(lookup, regs.meter, Meter);
    lookup := Register(lookup, regs.mppt, Mppt);
    forall name ensures LooksUp(regs, lookup, name) {
      LocatedTogether(regs, lookup, name);
    }
  }

  lemma LocatedTogether(regs: Registries, lookup: Lookup, name: Name)
    requires lookup == map[] + Located(regs.main, Main) + Located(regs.battery, Battery) +
      Located(regs.meter, Meter) + Located(regs.mppt, Mppt)
    ensures LooksUp(regs, lookup, name)
  {
    var none: Lookup := map[];
    assert none + Located(regs.main, Main) == Located(regs.main, Main);
    OnlyIn(Located(regs.main, Main), Located(regs.battery, Battery), Located(regs.meter, Meter),
           Located(regs.mppt, Mppt), name);
  }

  method ReadSensor(regs: Registries, lookup: Lookup, image: Image, name: Name) returns (r: Option<SensorValue>)
    requires IsLookup(regs, lookup)
    ensures r == One(regs, image, name)
    ensures r.Some? ==> exists b :: Comes(regs, image, b, name, r.value)
  {
    assert LooksUp(regs, lookup, name);
    if name !in lookup {
      return None;
    }
    var sb := lookup[name];
    var data := image(sb.startReg, sb.readQty);
    if sb.block == Meter && data.IllegalDataAddress? {
      var fallback := 0;
      if sb.readQty >= METER_COUNT {
        fallback := METER_FALLBACK1;
      } else if sb.readQty >= METER_FALLBACK1 {
        fallback := METER_FALLBACK2;
      }
      if fallback > 0 {
        data := image(sb.startReg, fallback);
        if data.IllegalDataAddress? && fallback == METER_FALLBACK1 {
          data := image(sb.startReg, METER_FALLBACK2);
        }
      }
    }
    if sb.block == Meter {
      AttemptMeter(image);
    } else {
      AttemptOther(image, sb.block);
    }
    if !data.Bytes? {
      return None;
    }
    r := Some(SensorValue(sb.def.calculator(data.data), sb.def.unit, sb.def.name));
    assert Comes(regs, image, sb.block, name, r.value);
  }

  function One(regs: Registries, image: Image, name: Name): Option<SensorValue> {
    var home := Home(regs, name);
    if home.None? then None
    else
      var r := Read(image, home.value);
      if r.Bytes? then Some(Compute(regs.Of(home.value)[name], r.data)) else None
  }

  // ---------------------------------------------------------------- the two agree

  /** Reading one by one gives what reading all together gives. */
  ghost predicate Agrees(regs: Registries, image: Image) {
    forall name :: One(regs, image, name) == if name in All(regs, image) then Some(All(regs, image)[name]) else None
  }

  ghost predicate Disjoint(regs: Registries) {
    forall b, c, name :: name in regs.Of(b) && name in regs.Of(c) ==> b == c
  }

  lemma OneOfAll(regs: Registries, image: Image, name: Name)
    requires Disjoint(regs)
    ensures One(regs, image, name) == if name in All(regs, image) then Some(All(regs, image)[name]) else None
  {
    var home := Home(regs, name);
    forall b | home != Some(b) ensures name !in Values(regs, image, b) {
    }
    if home.Some? {
      assert One(regs, image, name) ==
        var values := Values(regs, image, home.value);
        if name in values then Some(values[name]) else None;
    }
    OnlyIn(Values(regs, image, Main), Values(regs, image, Battery), Values(regs, image, Meter),
           Values(regs, image, Mppt), name);
  }

  /** A key that is in at most one of four maps. */
  lemma OnlyIn<K, V>(a: map<K, V>, b: map<K, V>, c: map<K, V>, d: map<K, V>, k: K)
    ensures k in a + b + c + d <==> k in a || k in b || k in c || k in d
    ensures k in a && k !in b && k !in c && k !in d ==> (a + b + c + d)[k] == a[k]
    ensures k in b && k !in c && k !in d ==> (a + b + c + d)[k] == b[k]
    ensures k in c && k !in d ==> (a + b + c + d)[k] == c[k]
    ensures k in d ==> (a + b + c + d)[k] == d[k]
  {
  }

  /** Two bytes for every register that was asked for, or an error. */
  ghost predicate FullLength(image: Image) {
    forall start: nat, count: nat :: image(start, count).Bytes? ==> |image(start, count).data| == 2 * count
  }

  function Zeros(n: nat): (zeros: seq<Byte>)
    ensures |zeros| == n
  {
    if n == 0 then [] else [0] + Zeros(n - 1)
  }

  /** An inverter that has all blocks but one, and zero in every register. */
  function Without(b: Block): Image {
    (start: nat, count: nat) => if start == Offset(b) then IllegalDataAddress else Bytes(Zeros(2 * count))
  }

  lemma WithoutAt(b: Block, start: nat, count: nat)
    ensures Without(b)(start, count) == if start == Offset(b) then IllegalDataAddress else Bytes(Zeros(2 * count))
  {
  }

  lemma WithoutReads(b: Block, c: Block)
    ensures Read(Without(b), c).Bytes? <==> b != c
    ensures FullLength(Without(b))
  {
    var image := Without(b);
    forall start: nat, count: nat
      ensures image(start, count) == if start == Offset(b) then IllegalDataAddress else Bytes(Zeros(2 * count))
    {
      WithoutAt(b, start, count);
    }
    if c == Meter {
      AttemptMeter(image);
    } else {
      AttemptOther(image, c);
    }
  }

  /** A name in two blocks is not found by itself when the later block cannot be read, but among all sensors. */
  lemma SharedNameDiffers(regs: Registries, b: Block, c: Block, name: Name)
    requires b != c && name in regs.Of(b) && name in regs.Of(c)
    ensures var image := Without(Home(regs, name).value);
      FullLength(image) && Read(image, Main).Bytes? && !Agrees(regs, image)
  {
    var home := Home(regs, name).value;
    var image := Without(home);
    var other := if b == home then c else b;
    WithoutReads(home, Main);
    WithoutReads(home, home);
    WithoutReads(home, other);
    assert One(regs, image, name) == None;
    assert name in Values(regs, image, other);
    assert name in All(regs, image);
  }

  /** Whatever can be read of an inverter, as long as its main block can, the two ways agree on every sensor; and this
      is so if and only if no two blocks have a sensor of the same name. Nor would it be so in more cases if all blocks
      that can be read were of full length. */
  lemma ReadsAgreeIff(regs: Registries)
    ensures (forall image: Image :: Read(image, Main).Bytes? ==> Agrees(regs, image)) <==> Disjoint(regs)
    ensures (forall image: Image :: FullLength(image) && Read(image, Main).Bytes? ==> Agrees(regs, image)) <==>
      Disjoint(regs)
  {
    if Disjoint(regs) {
      forall image: Image, name | true
        ensures One(regs, image, name) == if name in All(regs, image) then Some(All(regs, image)[name]) else None
      {
        OneOfAll(regs, image, name);
      }
    } else {
      var b, c, name :| name in regs.Of(b) && name in regs.Of(c) && b != c;
      SharedNameDiffers(regs, b, c, name);
    }
  }
}
