// JSON values and the library that prints and parses them.
module Json {
  import opened Prelude

  datatype Value =
    | Null
    | Bool(b: bool)
    | Num(n: real)
    | Str(s: string)
    | Arr(items: seq<Value>)
    | Obj(fields: map<string, Value>)
  {
    // Member access: absent on anything but an object that has the key.
    function Get(key: string): Option<Value> {
      if Obj? && key in fields then Some(fields[key]) else None
    }

    function AsStr(): Option<string> {
      if Str? then Some(s) else None
    }

    function AsBool(): Option<bool> {
      if Bool? then Some(b) else None
    }

    function AsArr(): Option<seq<Value>> {
      if Arr? then Some(items) else None
    }

    function GetStr(key: string): Option<string> {
      match Get(key)
      case Some(v) => v.AsStr()
      case None => None
    }

    function GetBool(key: string): Option<bool> {
      match Get(key)
      case Some(v) => v.AsBool()
      case None => None
    }

    function GetArr(key: string): Option<seq<Value>> {
      match Get(key)
      case Some(v) => v.AsArr()
      case None => None
    }
  }

  // Members are what an object has under a key; of another type, they count as absent.
  lemma {:induction false} MembersAre(v: Value, key: string)
    ensures forall x :: v.Get(key) == Some(x) <==> v.Obj? && key in v.fields && v.fields[key] == x
    ensures forall s :: v.GetStr(key) == Some(s) <==> v.Get(key) == Some(Str(s))
    ensures forall b :: v.GetBool(key) == Some(b) <==> v.Get(key) == Some(Bool(b))
    ensures forall items :: v.GetArr(key) == Some(items) <==> v.Get(key) == Some(Arr(items))
  {
  }

  // The JSON library, as seen by its callers: printing always succeeds, and a
  // value round-trips if parsing its printed form gives it back.
  datatype Codec = Codec(print_: Value -> string, parse: string -> Option<Value>) {
    ghost predicate RoundTrips(v: Value) {
      parse(print_(v)) == Some(v)
    }
  }

  // Round trips can be had for any values a run meets: number them.
  lemma {:induction false} SomeCodecRoundTrips(vs: seq<Value>) returns (codec: Codec)
    ensures forall v :: v in vs ==> codec.RoundTrips(v)
  {
    codec := Codec(v => seq(IndexOf(vs, v), _ => '1'), s => if |s| < |vs| then Some(vs[|s|]) else None);
    forall v | v in vs
      ensures codec.RoundTrips(v)
    {
      IndexOfHas(vs, v);
      assert |codec.print_(v)| == IndexOf(vs, v);
    }
  }

  function IndexOf(vs: seq<Value>, v: Value): (i: nat)
    ensures i <= |vs|
  {
    if vs == [] || vs[0] == v then 0 else 1 + IndexOf(vs[1..], v)
  }

  lemma {:induction false} IndexOfHas(vs: seq<Value>, v: Value)
    requires v in vs
    ensures IndexOf(vs, v) < |vs| && vs[IndexOf(vs, v)] == v
  {
    if vs[0] != v {
      IndexOfHas(vs[1..], v);
    }
  }
}
