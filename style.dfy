/**
 * Keyword options handed to the rendering calls.  Each plotting operation
 * takes a caller's keyword mapping, pops two style keys out of it (falling
 * back to a default when the caller did not give one) and calls the
 * renderer with those two keys named explicitly and the rest passed through.
 */
module Style {

  datatype Option<+T> = None | Some(value: T)

  /**
   * A keyword argument's value: a number (size, width), a text (a colour
   * name), or data that a call names itself (the segments of a line
   * collection), whose contents do not matter here.
   */
  datatype Value = Num(n: real) | Text(s: string) | Data

  /** A keyword-argument mapping. */
  type Kwds = map<string, Value>

  // The style keys and their defaults.
  const DotSizeKey: string := "s"
  const DotColorKey: string := "c"
  const LineWidthKey: string := "linewidths"
  const LineColorKey: string := "colors"
  const SegmentsKey: string := "segments"
  const DefaultDotSize: Value := Num(10.0)
  const DefaultDotColor: Value := Text("black")
  const DefaultLineWidth: Value := Num(1.0)
  const DefaultLineColor: Value := Text("black")

  /**
   * `kwds.pop(key, default)`: the caller's value for `key` if there is one,
   * else the default; and the mapping without `key`, all else kept.
   */
  function Pop(kwds: Kwds, key: string, default: Value): (r: (Value, Kwds))
    ensures key in kwds ==> r.0 == kwds[key]
    ensures key !in kwds ==> r.0 == default
    ensures r.1.Keys == kwds.Keys - {key}
    ensures forall k :: k in r.1 ==> r.1[k] == kwds[k]
  {
    if key in kwds then (kwds[key], kwds - {key}) else (default, kwds)
  }

  /**
   * A call `f(k1=v1, ..., **rest)`: the keyword arguments `f` receives, or
   * None when a key is given twice (the call then raises a TypeError).
   */
  function Call(named: Kwds, rest: Kwds): (r: Option<Kwds>)
    ensures r.Some? <==> named.Keys !! rest.Keys
    ensures r.Some? ==> r.value.Keys == named.Keys + rest.Keys
    ensures r.Some? ==> forall k :: k in named ==> r.value[k] == named[k]
    ensures r.Some? ==> forall k :: k in rest ==> r.value[k] == rest[k]
  {
    if named.Keys !! rest.Keys then Some(named + rest) else None
  }

  /**
   * Pop `key1` and `key2` with their defaults, then call the renderer with
   * every key of `data` and both style keys named, and the rest passed
   * through.  The call fails exactly when the caller passed a data key too.
   * Otherwise every key the caller gave arrives with the caller's value, a
   * style key the caller left out arrives with its default, and each data
   * key arrives as the call's own data.
   */
  function StyleCall(kwds: Kwds, data: set<string>, key1: string, default1: Value, key2: string, default2: Value): (r: Option<Kwds>)
    requires key1 != key2 && key1 !in data && key2 !in data
    ensures r.Some? <==> data !! kwds.Keys
    ensures r.Some? ==> r.value.Keys == data + kwds.Keys + {key1, key2}
    ensures r.Some? ==> forall k :: k in data ==> r.value[k] == Data
    ensures r.Some? ==> forall k :: k in kwds ==> r.value[k] == kwds[k]
    ensures r.Some? && key1 !in kwds ==> r.value[key1] == default1
    ensures r.Some? && key2 !in kwds ==> r.value[key2] == default2
  {
    var (v1, rest1) := Pop(kwds, key1, default1);
    var (v2, rest2) := Pop(rest1, key2, default2);
    var named := (map k | k in data :: Data)[key1 := v1][key2 := v2];
    assert named.Keys == data + {key1, key2};
    assert rest2.Keys == kwds.Keys - {key1, key2};
    assert data !! kwds.Keys <==> named.Keys !! rest2.Keys by {
      if !(data !! kwds.Keys) {
        var k :| k in data && k in kwds.Keys;
        assert k in named.Keys && k in rest2.Keys;
      }
    }
    Call(named, rest2)
  }

  /**
   * The keyword arguments of the scatter call in `plot_dots`: `s` defaults to
   * 10, `c` to black; the call names no other keyword, so it always succeeds.
   */
  function ScatterKeywords(kwds: Kwds): (r: Kwds)
    ensures r.Keys == kwds.Keys + {DotSizeKey, DotColorKey}
    ensures r[DotSizeKey] == if DotSizeKey in kwds then kwds[DotSizeKey] else Num(10.0)
    ensures r[DotColorKey] == if DotColorKey in kwds then kwds[DotColorKey] else Text("black")
    ensures forall k :: k in kwds ==> r[k] == kwds[k]
  {
    StyleCall(kwds, {}, DotSizeKey, DefaultDotSize, DotColorKey, DefaultDotColor).value
  }

  /**
   * The keyword arguments of the line collection in `plot_prickles`, which
   * also names `segments`: None (a TypeError) when the caller passed
   * `segments`; otherwise `linewidths` defaults to 1 and `colors` to black.
   */
  function LineKeywords(kwds: Kwds): (r: Option<Kwds>)
    ensures r.Some? <==> SegmentsKey !in kwds
    ensures r.Some? ==> r.value.Keys == kwds.Keys + {SegmentsKey, LineWidthKey, LineColorKey}
    ensures r.Some? ==> r.value[SegmentsKey] == Data
    ensures r.Some? ==> r.value[LineWidthKey] == if LineWidthKey in kwds then kwds[LineWidthKey] else Num(1.0)
    ensures r.Some? ==> r.value[LineColorKey] == if LineColorKey in kwds then kwds[LineColorKey] else Text("black")
    ensures r.Some? ==> forall k :: k in kwds ==> r.value[k] == kwds[k]
  {
    StyleCall(kwds, {SegmentsKey}, LineWidthKey, DefaultLineWidth, LineColorKey, DefaultLineColor)
  }

  /**
   * Without the pops, naming a style key explicitly and also passing the
   * caller's mapping through would hand the renderer that key twice.
   */
  lemma PassingWithoutPopFails(kwds: Kwds, key1: string, v1: Value, key2: string, v2: Value)
    requires key1 in kwds
    ensures Call(map[key1 := v1, key2 := v2], kwds) == None
  {
  }
}
