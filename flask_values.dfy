/** The values side of the `secure-flask-session-configuration` rule
    (src/core_codemods/secure_flask_session_config.py): the table of acceptable
    session-cookie settings, the reading of a written value (`true_value`), the
    replacement value the rule writes, and the text of the appended
    `app.config.update(...)` arguments. */
module FlaskValues {
  import opened Syntax
  import Strings

  /** The Python values a written setting is compared with. */
  datatype PyValue = PyNone | PyBool(b: bool) | PyStr(s: string)

  /** Python truthiness. */
  predicate Truthy(v: PyValue)
  {
    match v
    case PyNone => false
    case PyBool(b) => b
    case PyStr(s) => s != ""
  }

  /** One dictionary entry: a configuration key and its acceptable values, in
      order of precedence; `PyNone` means leaving the key unassigned is fine. */
  datatype ConfigEntry = ConfigEntry(key: string, acceptable: seq<PyValue>)

  /** An insertion-ordered dictionary of configuration entries. */
  type Configs = seq<ConfigEntry>

  /** `SECURE_SESSION_CONFIGS`. */
  const SecureSessionConfigs: Configs := [
    ConfigEntry("SESSION_COOKIE_HTTPONLY", [PyNone, PyBool(true)]),
    ConfigEntry("SESSION_COOKIE_SECURE", [PyBool(true)]),
    ConfigEntry("SESSION_COOKIE_SAMESITE", [PyStr("Lax"), PyStr("Strict")])
  ]

  function KeySet(d: Configs): set<string>
  {
    set e | e in d :: e.key
  }

  /** `d[key]` when present. */
  function Lookup(d: Configs, key: string): Option<seq<PyValue>>
  {
    if d == [] then None else if d[0].key == key then Some(d[0].acceptable) else Lookup(d[1..], key)
  }

  lemma {:induction false} LookupFindsKeys(d: Configs, key: string)
    ensures Lookup(d, key).Some? <==> key in KeySet(d)
  {
    if d != [] {
      LookupFindsKeys(d[1..], key);
      assert KeySet(d) == {d[0].key} + KeySet(d[1..]) by {
        assert forall e :: e in d <==> e == d[0] || e in d[1..];
      }
    }
  }

  /** A key of `SECURE_SESSION_CONFIGS`. */
  predicate IsSecureKey(key: string)
  {
    Lookup(SecureSessionConfigs, key).Some?
  }

  function AcceptableValues(key: string): seq<PyValue>
    requires IsSecureKey(key)
  {
    Lookup(SecureSessionConfigs, key).value
  }

  /** `d` without the entries whose key is in `keys`, the rest in order. */
  function Without(d: Configs, keys: set<string>): (r: Configs)
    ensures forall e :: e in r <==> e in d && e.key !in keys
  {
    if d == [] then [] else (if d[0].key in keys then [] else [d[0]]) + Without(d[1..], keys)
  }

  /** `_remove_config`: delete `key` if present. */
  function RemoveConfig(d: Configs, key: string): Configs
  {
    Without(d, {key})
  }

  lemma {:induction false} WithoutKeySet(d: Configs, keys: set<string>)
    ensures KeySet(Without(d, keys)) == KeySet(d) - keys
  {
    if d != [] {
      WithoutKeySet(d[1..], keys);
      assert KeySet(d) == {d[0].key} + KeySet(d[1..]) by {
        assert forall e :: e in d <==> e == d[0] || e in d[1..];
      }
      var w := Without(d, keys);
      var head := if d[0].key in keys then [] else [d[0]];
      assert KeySet(w) == KeySet(head) + KeySet(Without(d[1..], keys)) by {
        assert forall e :: e in w <==> e in head || e in Without(d[1..], keys);
      }
    }
  }

  /** Removing a key that is not there leaves the dictionary as it was. */
  lemma {:induction false} RemoveAbsentConfig(d: Configs, key: string)
    requires key !in KeySet(d)
    ensures RemoveConfig(d, key) == d
  {
    if d != [] {
      assert d[0] in d;
      assert forall e :: e in d[1..] ==> e in d;
      RemoveAbsentConfig(d[1..], key);
      assert [d[0]] + d[1..] == d;
    }
  }

  /** Removing no key leaves the dictionary as it was. */
  lemma {:induction false} WithoutNothing(d: Configs)
    ensures Without(d, {}) == d
  {
    if d != [] {
      WithoutNothing(d[1..]);
      assert [d[0]] + d[1..] == d;
    }
  }

  /** Removals compose: dropping `a` and then `b` drops `a + b`. */
  lemma {:induction false} WithoutWithout(d: Configs, a: set<string>, b: set<string>)
    ensures Without(Without(d, a), b) == Without(d, a + b)
  {
    if d != [] {
      WithoutWithout(d[1..], a, b);
      if d[0].key !in a {
        var w := Without(d, a);
        assert w == [d[0]] + Without(d[1..], a);
        assert w != [] && w[0] == d[0] && w[1..] == Without(d[1..], a);
        assert Without(w, b) == (if d[0].key in b then [] else [d[0]]) + Without(w[1..], b);
        assert Without(w[1..], b) == Without(d[1..], a + b);
        assert (d[0].key in b) == (d[0].key in a + b);
      } else {
        assert Without(d, a) == Without(d[1..], a);
      }
    }
  }

  /** `true_value`: how the rule reads a written value. Strings give their text,
      the names `true`/`false` in any letter case give booleans, other names
      give their own text, anything else the empty string. */
  function TrueValue(e: Expr): (r: PyValue)
    ensures !e.Name? && !e.SimpleString? ==> r == PyStr("")
    ensures e.SimpleString? ==> r == PyStr(e.text)
    ensures r.PyBool? ==> e.Name? && r.b == (Strings.Lower(e.id) == "true")
  {
    match e
    case SimpleString(text) => PyStr(text)
    case Name(id) =>
      if Strings.Lower(id) == "true" then PyBool(true)
      else if Strings.Lower(id) == "false" then PyBool(false)
      else PyStr(id)
    case _ => PyStr("")
  }

  /** The expression `parse_expression` builds for a value: a double-quoted
      string for a `str`, its `repr` as a name otherwise. */
  function ValueExpr(v: PyValue): Expr
  {
    match v
    case PyStr(s) => SimpleString(s)
    case PyBool(b) => Name(if b then "True" else "False")
    case PyNone => Name("None")
  }

  /** Reading back a written boolean or string gives the value itself. */
  lemma TrueValueReadsBack(v: PyValue)
    requires v != PyNone
    ensures TrueValue(ValueExpr(v)) == v
  {
    if v.PyBool? {
      assert Strings.Lower("True") == "true";
      assert Strings.Lower("False") == "false";
    }
  }

  /** `configs[key][0] or configs[key][1]`: the first value if truthy, else the second. */
  function FirstTruthyOrSecond(acceptable: seq<PyValue>): (v: PyValue)
    requires |acceptable| >= 1 && (Truthy(acceptable[0]) || |acceptable| >= 2)
    ensures Truthy(acceptable[0]) ==> v == acceptable[0]
    ensures !Truthy(acceptable[0]) ==> v == acceptable[1]
  {
    if Truthy(acceptable[0]) then acceptable[0] else acceptable[1]
  }

  /** Every table entry has a replacement value that is not `None`: its first
      value is truthy, or there is a second one that is not `None`. */
  lemma SecureTableHasReplacements(key: string)
    requires IsSecureKey(key)
    ensures var acc := AcceptableValues(key);
            |acc| >= 1 && (Truthy(acc[0]) || (|acc| >= 2 && acc[1] != PyNone))
  {
    var t := SecureSessionConfigs;
    assert Lookup(t[1..], key) == Lookup(t[2..], key) || key == t[1].key;
    if key == t[0].key {
    } else if key == t[1].key {
      assert Lookup(t, key) == Lookup(t[1..], key);
    } else if key == t[2].key {
      assert Lookup(t, key) == Lookup(t[1..], key) == Lookup(t[2..], key);
    } else {
      assert false;
    }
  }

  /** `_get_secure_config_val`: the expression written in place of an unsafe value. */
  function SecureConfigExpr(key: string): Expr
    requires IsSecureKey(key)
  {
    SecureTableHasReplacements(key);
    ValueExpr(FirstTruthyOrSecond(AcceptableValues(key)))
  }

  /** The replacement is itself acceptable, so a rewritten setting is kept on a
      later pass. */
  lemma {:induction false} SecureReplacementAccepted(key: string)
    requires IsSecureKey(key)
    ensures TrueValue(SecureConfigExpr(key)) in AcceptableValues(key)
  {
    SecureTableHasReplacements(key);
    var v := FirstTruthyOrSecond(AcceptableValues(key));
    assert v != PyNone;
    TrueValueReadsBack(v);
  }

  /** A pending entry that goes into the appended call: its first value is not `None`. */
  predicate Qualifies(e: ConfigEntry)
  {
    |e.acceptable| > 0 && e.acceptable[0] != PyNone
  }

  /** `key='value'` for a string first value, `key=value` (Python's rendering) otherwise. */
  function ConfigItem(e: ConfigEntry): string
    requires Qualifies(e)
  {
    match e.acceptable[0]
    case PyStr(s) => e.key + "='" + s + "'"
    case PyBool(b) => e.key + "=" + (if b then "True" else "False")
  }

  /** The rendered items of the qualifying entries, in dictionary order. */
  function ConfigItems(d: Configs): seq<string>
  {
    if d == [] then []
    else (if Qualifies(d[0]) then [ConfigItem(d[0])] else []) + ConfigItems(d[1..])
  }

  /** The `config_string` joined for the appended `update` call. */
  function ConfigString(d: Configs): string
  {
    Strings.Join(ConfigItems(d), ", ")
  }

  lemma {:induction false} ConfigItemsNonEmpty(d: Configs)
    ensures forall i :: 0 <= i < |ConfigItems(d)| ==> ConfigItems(d)[i] != ""
    ensures ConfigItems(d) == [] <==> forall i :: 0 <= i < |d| ==> !Qualifies(d[i])
  {
    if d != [] {
      ConfigItemsNonEmpty(d[1..]);
      if Qualifies(d[0]) {
        assert |ConfigItem(d[0])| > 0;
      }
      assert forall i :: 1 <= i < |d| ==> d[i] == d[1..][i - 1];
    }
  }

  /** Nothing is rendered exactly when no entry has a non-`None` first value. */
  lemma ConfigStringEmptyIff(d: Configs)
    ensures ConfigString(d) == "" <==> forall i :: 0 <= i < |d| ==> !Qualifies(d[i])
  {
    ConfigItemsNonEmpty(d);
    Strings.JoinEmptyIff(ConfigItems(d), ", ");
  }

  /** With nothing written, the appended arguments set the secure flag and the
      `Lax` same-site policy; the HTTP-only flag is left to its default. */
  lemma FullTableString()
    ensures ConfigItems(SecureSessionConfigs) == ["SESSION_COOKIE_SECURE=True", "SESSION_COOKIE_SAMESITE='Lax'"]
    ensures ConfigString(SecureSessionConfigs) == "SESSION_COOKIE_SECURE=True" + ", " + "SESSION_COOKIE_SAMESITE='Lax'"
  {
    var t := SecureSessionConfigs;
    assert !Qualifies(t[0]);
    assert ConfigItem(t[1]) == "SESSION_COOKIE_SECURE=True";
    assert ConfigItem(t[2]) == "SESSION_COOKIE_SAMESITE='Lax'";
    assert t[1..][1..] == [t[2]] && [t[2]][1..] == [];
    assert ConfigItems([t[2]]) == [ConfigItem(t[2])];
    assert ConfigItems(t[1..]) == [ConfigItem(t[1]), ConfigItem(t[2])];
    assert ConfigItems(t) == ConfigItems(t[1..]);
    assert ConfigItems(t)[1..] == [ConfigItem(t[2])];
  }
}
