/**
 * The parameters `updateProduct` builds from the body's top-level keys: the
 * update expression `SET #key0 = :value0, #key1 = :value1, ...`, the name map
 * `#key<i>` to the i-th key and the value map `:value<i>` to that key's value.
 */
module UpdateBuilder {
  import opened Json
  import opened Decimal

  function KeyPlaceholder(i: nat): string {
    "#key" + NatToString(i)
  }

  function ValuePlaceholder(i: nat): string {
    ":value" + NatToString(i)
  }

  /** The i-th clause of the expression. */
  function Clause(i: nat): string {
    KeyPlaceholder(i) + " = " + ValuePlaceholder(i)
  }

  /** `Array.prototype.join`. */
  function Join(sep: string, parts: seq<string>): string
    decreases |parts|
  {
    if |parts| == 0 then ""
    else if |parts| == 1 then parts[0]
    else parts[0] + sep + Join(sep, parts[1..])
  }

  /** `String.prototype.split` on a non-empty separator: the pieces between occurrences of `sep`. */
  function Split(s: string, sep: string): (r: seq<string>)
    requires |sep| > 0
    ensures |r| >= 1
    decreases |s|
  {
    if |s| == 0 then [""]
    else if |sep| <= |s| && s[..|sep|] == sep then [""] + Split(s[|sep|..], sep)
    else
      var rest := Split(s[1..], sep);
      [[s[0]] + rest[0]] + rest[1..]
  }

  predicate Avoids(s: string, c: char) {
    forall i | 0 <= i < |s| :: s[i] != c
  }

  /** `keys.map((_, index) => ...)`: one clause per key, in key order. */
  function ClausesOf(keys: seq<string>): seq<string> {
    seq(|keys|, i requires 0 <= i < |keys| => Clause(i))
  }

  /** The `UpdateExpression` parameter. */
  function UpdateExpression(keys: seq<string>): string {
    "SET " + Join(", ", ClausesOf(keys))
  }

  /** The `ExpressionAttributeNames` parameter: `reduce` over the keys, adding `#key<i>` to `keys[i]`. */
  function NameMap(keys: seq<string>): map<string, string>
    decreases |keys|
  {
    if keys == [] then map[]
    else NameMap(keys[..|keys| - 1])[KeyPlaceholder(|keys| - 1) := keys[|keys| - 1]]
  }

  /** The `ExpressionAttributeValues` parameter: `reduce` over the keys, adding `:value<i>` to the key's value. */
  function ValueMap(keys: seq<string>, fields: map<string, Value>): map<string, Value>
    requires forall i | 0 <= i < |keys| :: keys[i] in fields
    decreases |keys|
  {
    if keys == [] then map[]
    else ValueMap(keys[..|keys| - 1], fields)[ValuePlaceholder(|keys| - 1) := fields[keys[|keys| - 1]]]
  }

  /** Looks the name placeholders up in index order. */
  function RecoverKeys(names: map<string, string>, n: nat): seq<string>
    decreases n
  {
    if n == 0 then []
    else
      var k := KeyPlaceholder(n - 1);
      RecoverKeys(names, n - 1) + [if k in names then names[k] else ""]
  }

  /**
   * Reference reading of `n` clauses `#key<i> = :value<i>` under the two maps:
   * the attribute each name placeholder stands for receives the value its
   * value placeholder stands for, later clauses winning.
   */
  function Substitute(names: map<string, string>, values: map<string, Value>, n: nat): map<string, Value>
    decreases n
  {
    if n == 0 then map[]
    else
      var earlier := Substitute(names, values, n - 1);
      var k, v := KeyPlaceholder(n - 1), ValuePlaceholder(n - 1);
      if k in names && v in values then earlier[names[k] := values[v]] else earlier
  }

  /** No two placeholders coincide. */
  lemma PlaceholdersDistinct(i: nat, j: nat)
    ensures KeyPlaceholder(i) == KeyPlaceholder(j) ==> i == j
    ensures ValuePlaceholder(i) == ValuePlaceholder(j) ==> i == j
    ensures KeyPlaceholder(i) != ValuePlaceholder(j)
  {
    if KeyPlaceholder(i) == KeyPlaceholder(j) {
      assert NatToString(i) == KeyPlaceholder(i)[4..];
      assert NatToString(j) == KeyPlaceholder(j)[4..];
      NatToStringInjective(i, j);
    }
    if ValuePlaceholder(i) == ValuePlaceholder(j) {
      assert NatToString(i) == ValuePlaceholder(i)[6..];
      assert NatToString(j) == ValuePlaceholder(j)[6..];
      NatToStringInjective(i, j);
    }
    assert KeyPlaceholder(i)[0] == '#' && ValuePlaceholder(j)[0] == ':';
  }

  lemma ClauseAvoidsComma(i: nat)
    ensures Avoids(Clause(i), ',')
  {
    var d := NatToString(i);
    assert Clause(i) == "#key" + d + " = " + ":value" + d;
    forall k | 0 <= k < |Clause(i)| ensures Clause(i)[k] != ',' {
      if 4 <= k < 4 + |d| {
        assert Clause(i)[k] == d[k - 4];
      } else if 4 + |d| + 9 <= k {
        assert Clause(i)[k] == d[k - 4 - |d| - 9];
      }
    }
  }

  lemma {:induction false} SplitPrefix(p: string, s: string, sep: string)
    requires |sep| > 0 && Avoids(p, sep[0])
    ensures Split(p + s, sep) == [p + Split(s, sep)[0]] + Split(s, sep)[1..]
    decreases |p|
  {
    if p != [] {
      var r := Split(s, sep);
      assert (p + s)[0] == p[0] != sep[0];
      assert |sep| <= |p + s| ==> (p + s)[..|sep|][0] != sep[0];
      assert (p + s)[1..] == p[1..] + s;
      SplitPrefix(p[1..], s, sep);
      var rest := Split(p[1..] + s, sep);
      assert rest == [p[1..] + r[0]] + r[1..];
      assert Split(p + s, sep) == [[p[0]] + rest[0]] + rest[1..];
      assert [p[0]] + (p[1..] + r[0]) == p + r[0];
    } else {
      var r := Split(s, sep);
      assert p + s == s && p + r[0] == r[0];
      assert r == [r[0]] + r[1..];
    }
  }

  /** Splitting a join on its separator gives the parts back when no part holds the separator's first character. */
  lemma {:induction false} SplitJoin(parts: seq<string>, sep: string)
    requires |parts| >= 1 && |sep| > 0
    requires forall i | 0 <= i < |parts| :: Avoids(parts[i], sep[0])
    ensures Split(Join(sep, parts), sep) == parts
    decreases |parts|
  {
    if |parts| == 1 {
      SplitPrefix(parts[0], "", sep);
      assert Split("", sep) == [""];
      assert parts[0] + "" == parts[0];
    } else {
      var tail := Join(sep, parts[1..]);
      assert Join(sep, parts) == parts[0] + (sep + tail);
      assert (sep + tail)[..|sep|] == sep && (sep + tail)[|sep|..] == tail;
      SplitJoin(parts[1..], sep);
      assert Split(sep + tail, sep) == [""] + parts[1..];
      SplitPrefix(parts[0], sep + tail, sep);
      assert parts[0] + "" == parts[0];
      assert [parts[0]] + parts[1..] == parts;
    }
  }

  lemma {:induction false} JoinSnoc(sep: string, parts: seq<string>, p: string)
    ensures Join(sep, parts + [p]) == if parts == [] then p else Join(sep, parts) + sep + p
    decreases |parts|
  {
    if |parts| >= 2 {
      assert (parts + [p])[1..] == parts[1..] + [p];
      JoinSnoc(sep, parts[1..], p);
    } else if |parts| == 1 {
      assert (parts + [p])[1..] == [p];
    }
  }

  /**
   * The expression is `SET ` followed by clause i for each key i, in order,
   * separated by `, `; reading the clause list back splits it into exactly
   * those clauses, and with no keys the expression is `SET ` alone.
   */
  lemma ExpressionClauses(keys: seq<string>)
    ensures |UpdateExpression(keys)| >= 4 && UpdateExpression(keys)[..4] == "SET "
    ensures keys == [] ==> UpdateExpression(keys) == "SET "
    ensures keys != [] ==> Split(UpdateExpression(keys)[4..], ", ") == ClausesOf(keys)
    ensures forall i | 0 <= i < |keys| :: ClausesOf(keys)[i] == KeyPlaceholder(i) + " = " + ValuePlaceholder(i)
  {
    if keys != [] {
      var parts := ClausesOf(keys);
      forall i | 0 <= i < |parts| ensures Avoids(parts[i], ", "[0]) {
        ClauseAvoidsComma(i);
      }
      SplitJoin(parts, ", ");
      assert UpdateExpression(keys)[4..] == Join(", ", parts);
    }
  }

  /** Adding a key appends one clause to the expression, as the name and value maps each gain one entry. */
  lemma ExpressionSnoc(keys: seq<string>, k: string)
    ensures UpdateExpression(keys + [k])
         == UpdateExpression(keys) + (if keys == [] then "" else ", ") + Clause(|keys|)
  {
    var before, after := ClausesOf(keys), ClausesOf(keys + [k]);
    assert |after| == |before| + 1;
    forall i | 0 <= i < |after| ensures after[i] == (before + [Clause(|keys|)])[i] {
    }
    assert after == before + [Clause(|keys|)];
    JoinSnoc(", ", before, Clause(|keys|));
    if keys != [] {
      assert "SET " + (Join(", ", before) + ", " + Clause(|keys|))
          == ("SET " + Join(", ", before)) + ", " + Clause(|keys|);
    }
  }

  /** The set of the first `n` name placeholders. */
  function KeyPlaceholders(n: nat): set<string>
    decreases n
  {
    if n == 0 then {} else KeyPlaceholders(n - 1) + {KeyPlaceholder(n - 1)}
  }

  /** The set of the first `n` value placeholders. */
  function ValuePlaceholders(n: nat): set<string>
    decreases n
  {
    if n == 0 then {} else ValuePlaceholders(n - 1) + {ValuePlaceholder(n - 1)}
  }

  /** The first `n` name placeholders are `#key<i>` for i below `n`, all distinct. */
  lemma {:induction false} KeyPlaceholdersExactly(n: nat)
    ensures forall i: nat :: KeyPlaceholder(i) in KeyPlaceholders(n) <==> i < n
    ensures |KeyPlaceholders(n)| == n
    decreases n
  {
    if n > 0 {
      KeyPlaceholdersExactly(n - 1);
      forall i: nat ensures KeyPlaceholder(i) == KeyPlaceholder(n - 1) ==> i == n - 1 {
        PlaceholdersDistinct(i, n - 1);
      }
    }
  }

  /** The first `n` value placeholders are `:value<i>` for i below `n`, all distinct. */
  lemma {:induction false} ValuePlaceholdersExactly(n: nat)
    ensures forall i: nat :: ValuePlaceholder(i) in ValuePlaceholders(n) <==> i < n
    ensures |ValuePlaceholders(n)| == n
    decreases n
  {
    if n > 0 {
      ValuePlaceholdersExactly(n - 1);
      forall i: nat ensures ValuePlaceholder(i) == ValuePlaceholder(n - 1) ==> i == n - 1 {
        PlaceholdersDistinct(i, n - 1);
      }
    }
  }

  /** The name map maps exactly the first n name placeholders. */
  lemma {:induction false} NameMapKeys(keys: seq<string>)
    ensures NameMap(keys).Keys == KeyPlaceholders(|keys|)
    decreases |keys|
  {
    if keys != [] {
      NameMapKeys(keys[..|keys| - 1]);
    }
  }

  /** In the name map, `#key<i>` maps to `keys[i]`. */
  lemma {:induction false} NameMapLookup(keys: seq<string>)
    ensures forall i | 0 <= i < |keys| :: KeyPlaceholder(i) in NameMap(keys) && NameMap(keys)[KeyPlaceholder(i)] == keys[i]
    decreases |keys|
  {
    if keys != [] {
      var n := |keys| - 1;
      var pre := keys[..n];
      NameMapLookup(pre);
      forall i | 0 <= i < |keys| ensures KeyPlaceholder(i) in NameMap(keys) && NameMap(keys)[KeyPlaceholder(i)] == keys[i] {
        if i < n {
          PlaceholdersDistinct(i, n);
          assert pre[i] == keys[i];
        }
      }
    }
  }

  /** The name map has one entry per key: `#key<i>` maps to `keys[i]` and nothing else is mapped. */
  lemma NameMapContents(keys: seq<string>)
    ensures NameMap(keys).Keys == KeyPlaceholders(|keys|)
    ensures forall i | 0 <= i < |keys| :: KeyPlaceholder(i) in NameMap(keys) && NameMap(keys)[KeyPlaceholder(i)] == keys[i]
    ensures |NameMap(keys)| == |keys|
  {
    NameMapKeys(keys);
    NameMapLookup(keys);
    KeyPlaceholdersExactly(|keys|);
    assert |NameMap(keys)| == |NameMap(keys).Keys|;
  }

  /** The value map maps exactly the first n value placeholders. */
  lemma {:induction false} ValueMapKeys(keys: seq<string>, fields: map<string, Value>)
    requires forall i | 0 <= i < |keys| :: keys[i] in fields
    ensures ValueMap(keys, fields).Keys == ValuePlaceholders(|keys|)
    decreases |keys|
  {
    if keys != [] {
      ValueMapKeys(keys[..|keys| - 1], fields);
    }
  }

  /** In the value map, `:value<i>` maps to the value of `keys[i]`. */
  lemma {:induction false} ValueMapLookup(keys: seq<string>, fields: map<string, Value>)
    requires forall i | 0 <= i < |keys| :: keys[i] in fields
    ensures forall i | 0 <= i < |keys| ::
      ValuePlaceholder(i) in ValueMap(keys, fields) && ValueMap(keys, fields)[ValuePlaceholder(i)] == fields[keys[i]]
    decreases |keys|
  {
    if keys != [] {
      var n := |keys| - 1;
      var pre := keys[..n];
      ValueMapLookup(pre, fields);
      forall i | 0 <= i < |keys|
        ensures ValuePlaceholder(i) in ValueMap(keys, fields) && ValueMap(keys, fields)[ValuePlaceholder(i)] == fields[keys[i]]
      {
        if i < n {
          PlaceholdersDistinct(i, n);
          assert pre[i] == keys[i];
        }
      }
    }
  }

  /** The value map has one entry per key: `:value<i>` maps to the value of `keys[i]` and nothing else is mapped. */
  lemma ValueMapContents(keys: seq<string>, fields: map<string, Value>)
    requires forall i | 0 <= i < |keys| :: keys[i] in fields
    ensures ValueMap(keys, fields).Keys == ValuePlaceholders(|keys|)
    ensures forall i | 0 <= i < |keys| ::
      ValuePlaceholder(i) in ValueMap(keys, fields) && ValueMap(keys, fields)[ValuePlaceholder(i)] == fields[keys[i]]
    ensures |ValueMap(keys, fields)| == |keys|
  {
    ValueMapKeys(keys, fields);
    ValueMapLookup(keys, fields);
    ValuePlaceholdersExactly(|keys|);
    assert |ValueMap(keys, fields)| == |ValueMap(keys, fields).Keys|;
  }

  /** Looking the name placeholders up in index order gives back the key sequence. */
  lemma RecoverKeysOfNameMap(keys: seq<string>)
    ensures RecoverKeys(NameMap(keys), |keys|) == keys
  {
    NameMapLookup(keys);
    RecoverPrefix(keys, |keys|);
  }

  lemma {:induction false} RecoverPrefix(keys: seq<string>, m: nat)
    requires m <= |keys|
    requires forall i | 0 <= i < |keys| :: KeyPlaceholder(i) in NameMap(keys) && NameMap(keys)[KeyPlaceholder(i)] == keys[i]
    ensures RecoverKeys(NameMap(keys), m) == keys[..m]
    decreases m
  {
    if m > 0 {
      RecoverPrefix(keys, m - 1);
      assert keys[..m] == keys[..m - 1] + [keys[m - 1]];
    }
  }

  /** The body's fields restricted to its first `m` keys. */
  function FieldsUpTo(keys: seq<string>, fields: map<string, Value>, m: nat): map<string, Value>
    requires m <= |keys|
    requires forall i | 0 <= i < |keys| :: keys[i] in fields
    decreases m
  {
    if m == 0 then map[] else FieldsUpTo(keys, fields, m - 1)[keys[m - 1] := fields[keys[m - 1]]]
  }

  lemma {:induction false} FieldsUpToContents(keys: seq<string>, fields: map<string, Value>, m: nat)
    requires m <= |keys|
    requires forall i | 0 <= i < |keys| :: keys[i] in fields
    ensures forall k :: k in FieldsUpTo(keys, fields, m) <==> k in keys[..m]
    ensures forall k | k in FieldsUpTo(keys, fields, m) :: FieldsUpTo(keys, fields, m)[k] == fields[k]
    decreases m
  {
    if m > 0 {
      FieldsUpToContents(keys, fields, m - 1);
      assert keys[..m] == keys[..m - 1] + [keys[m - 1]];
    }
  }

  lemma {:induction false} SubstitutePrefix(keys: seq<string>, fields: map<string, Value>, m: nat)
    requires m <= |keys|
    requires forall i | 0 <= i < |keys| :: keys[i] in fields
    requires forall i | 0 <= i < |keys| :: KeyPlaceholder(i) in NameMap(keys) && NameMap(keys)[KeyPlaceholder(i)] == keys[i]
    requires forall i | 0 <= i < |keys| ::
      ValuePlaceholder(i) in ValueMap(keys, fields) && ValueMap(keys, fields)[ValuePlaceholder(i)] == fields[keys[i]]
    ensures Substitute(NameMap(keys), ValueMap(keys, fields), m) == FieldsUpTo(keys, fields, m)
    decreases m
  {
    if m > 0 {
      SubstitutePrefix(keys, fields, m - 1);
    }
  }

  /**
   * Substituting the two maps into the expression's clauses assigns exactly the
   * body's fields their values: the update touches those fields and no others.
   */
  lemma UpdateAssignsBody(o: JsObject)
    ensures Substitute(NameMap(o.keys), ValueMap(o.keys, o.fields), |o.keys|) == o.fields
  {
    var n := |o.keys|;
    NameMapLookup(o.keys);
    ValueMapLookup(o.keys, o.fields);
    SubstitutePrefix(o.keys, o.fields, n);
    FieldsUpToContents(o.keys, o.fields, n);
    assert o.keys[..n] == o.keys;
    var f := FieldsUpTo(o.keys, o.fields, n);
    assert forall k :: k in f <==> k in o.fields;
    assert f == o.fields;
  }
}
