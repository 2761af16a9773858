/** The part of `urllib.parse.parse_qs` that `get_video_id` uses: a query
    string is cut into fields at `&`, each field into a name and a value at
    its first `=`; fields without `=` or with an empty value are dropped
    (the default `keep_blank_values=False`), and `parse_qs(q)[key][0]` is
    the value of the first remaining field with that name. Percent and `+`
    decoding are not modelled: names and values are taken as written. */
module Query {
  import opened Wrappers
  import opened Strings

  /** One `name=value` field, or None when the field is dropped. */
  function PairOf(field: string): Option<(string, string)>
  {
    if '=' !in field then None
    else
      var i := IndexOf(field, '=');
      if i + 1 == |field| then None else Some((field[..i], field[i + 1..]))
  }

  /** The name/value pairs kept from a list of fields, in order. */
  function Pairs(fields: seq<string>): seq<(string, string)>
  {
    if fields == [] then []
    else
      match PairOf(fields[0])
      case None => Pairs(fields[1..])
      case Some(p) => [p] + Pairs(fields[1..])
  }

  /** The first value recorded for `key`, None standing for the KeyError. */
  function Lookup(pairs: seq<(string, string)>, key: string): Option<string>
  {
    if pairs == [] then None
    else if pairs[0].0 == key then Some(pairs[0].1)
    else Lookup(pairs[1..], key)
  }

  /** `parse_qs(q)[key][0]`, None when `key` is absent. */
  function QueryValue(q: string, key: string): Option<string>
  {
    Lookup(Pairs(Split(q, '&')), key)
  }

  /** A field binds `key` to `value` when it reads `key=value` with a
      non-empty value. */
  ghost predicate Binds(field: string, key: string, value: string)
  {
    value != [] && field == key + "=" + value
  }

  /** A field binds `key` to something when `key=` is a proper prefix. */
  ghost predicate BindsKey(field: string, key: string)
  {
    key + "=" < field
  }

  /** A field is kept under the name `key` exactly when it binds `key`. */
  lemma PairOfBinds(field: string, key: string, value: string)
    requires '=' !in key
    ensures PairOf(field) == Some((key, value)) <==> Binds(field, key, value)
  {
    if Binds(field, key, value) {
      assert field[|key|] == '=';
      assert field[..|key|] == key;
      IndexOfUnique(field, '=', |key|);
      assert field[|key| + 1..] == value;
    }
    if PairOf(field) == Some((key, value)) {
      var i := IndexOf(field, '=');
      assert field == field[..i] + "=" + field[i + 1..];
    }
  }

  lemma BindsKeyBinds(field: string, key: string)
    requires BindsKey(field, key)
    ensures Binds(field, key, field[|key| + 1..])
  {
  }

  /** The lookup over kept pairs, described on the raw fields alone: a value
      is found exactly when some field binds `key`, and it is the value of
      the first such field. */
  lemma {:induction false} PairsLookup(fields: seq<string>, key: string)
    requires '=' !in key
    ensures var r := Lookup(Pairs(fields), key);
      r.Some? ==> exists i :: 0 <= i < |fields| && Binds(fields[i], key, r.value) &&
                    forall j :: 0 <= j < i ==> !BindsKey(fields[j], key)
    ensures Lookup(Pairs(fields), key).None? <==>
      forall i :: 0 <= i < |fields| ==> !BindsKey(fields[i], key)
  {
    if fields != [] {
      var f, rest := fields[0], fields[1..];
      PairsLookup(rest, key);
      var r := Lookup(Pairs(fields), key);
      if BindsKey(f, key) {
        BindsKeyBinds(f, key);
        PairOfBinds(f, key, f[|key| + 1..]);
        assert r == Some(f[|key| + 1..]);
        assert Binds(fields[0], key, r.value);
      } else {
        match PairOf(f)
        case None =>
          assert Pairs(fields) == Pairs(rest);
        case Some(p) =>
          if p.0 == key {
            PairOfBinds(f, key, p.1);
            assert false;
          }
          assert Lookup(Pairs(fields), key) == Lookup(Pairs(rest), key);
        if r.Some? {
          var i :| 0 <= i < |rest| && Binds(rest[i], key, r.value) &&
                    forall j :: 0 <= j < i ==> !BindsKey(rest[j], key);
          assert fields[i + 1] == rest[i];
          assert forall j :: 0 <= j < i + 1 ==> !BindsKey(fields[j], key) by {
            forall j | 0 <= j < i + 1 ensures !BindsKey(fields[j], key) {
              if j > 0 { assert fields[j] == rest[j - 1]; }
            }
          }
        } else {
          forall i | 0 <= i < |fields| ensures !BindsKey(fields[i], key) {
            if i > 0 { assert fields[i] == rest[i - 1]; }
          }
        }
      }
    }
  }

  /** `parse_qs(q)[key][0]` described on the `&`-separated fields of `q`. */
  lemma QueryValueSpec(q: string, key: string)
    requires '=' !in key
    ensures var fields, r := Split(q, '&'), QueryValue(q, key);
      (r.Some? ==> exists i :: 0 <= i < |fields| && Binds(fields[i], key, r.value) &&
                     forall j :: 0 <= j < i ==> !BindsKey(fields[j], key)) &&
      (r.None? <==> forall i :: 0 <= i < |fields| ==> !BindsKey(fields[i], key))
  {
    PairsLookup(Split(q, '&'), key);
  }

  /** A query that starts with `key=value` yields that value, whatever
      fields follow it. */
  lemma LeadingField(key: string, value: string, tail: string)
    requires '=' !in key && '&' !in key
    requires value != [] && '&' !in value
    requires tail == [] || tail[0] == '&'
    ensures QueryValue(key + "=" + value + tail, key) == Some(value)
  {
    var f := key + "=" + value;
    assert '&' !in f;
    var fields := Split(f + tail, '&');
    if tail == [] {
      assert f + tail == f;
      assert fields == [f];
    } else {
      assert f + tail == f + ['&'] + tail[1..];
      SplitAfterPiece(f, tail[1..], '&');
      assert fields[0] == f;
    }
    assert Binds(fields[0], key, value);
    PairOfBinds(fields[0], key, value);
    assert Pairs(fields) == [(key, value)] + Pairs(fields[1..]);
  }
}
