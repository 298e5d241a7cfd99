/**
 * Field resolution: which `--fields` to ask nmcli for, found by looking the
 * space-joined command path up in a fixed table and dropping the last path
 * token until a registered key is met.
 */
module Fields {
  import opened Outcomes
  import opened Text

  /** The registered field sets, keyed by space-joined command path. */
  const FieldTable: map<string, seq<string>> := map[
    "nm" := ["RUNNING", "STATE", "WIFI-HARDWARE", "WIFI", "WWAN-HARDWARE", "WWAN"],
    "dev" := ["DEVICE", "TYPE", "STATE"],
    "con" := ["NAME", "UUID", "TYPE", "TIMESTAMP-REAL"],
    "con status" := ["NAME", "UUID", "DEVICES", "DEFAULT", "VPN", "MASTER-PATH"],
    "con list id" := ["connection", "802-3-ethernet", "802-1x", "802-11-wireless",
                      "802-11-wireless-security", "ipv4", "ipv6", "serial", "ppp", "pppoe",
                      "gsm", "cdma", "bluetooth", "802-11-olpc-mesh", "vpn", "infiniband", "bond",
                      "vlan"]
  ]

  /** The keys whose output comes in the multi-line `section.property:value` shape. */
  const MultilineKeys: seq<string> := ["con list id"]

  /** A Python value on the left of `in` when the right is a tuple of strings. */
  datatype Operand = Str(s: string) | StrList(items: seq<string>)

  /** Python's `x in t` for a tuple of strings `t`: a list never equals a string. */
  predicate TupleContains(t: seq<string>, x: Operand)
  {
    match x
    case Str(s) => s in t
    case StrList(_) => false
  }

  /** The field set chosen and the parsing mode that goes with it. */
  datatype Resolution = Resolution(fields: seq<string>, multiline: bool)

  /** Whether the first `k` path tokens, space-joined, form a registered key. */
  predicate RegisteredPrefix(ns: seq<string>, k: nat)
    requires k <= |ns|
  {
    Join(ns[..k], " ") in FieldTable
  }

  /**
   * `_build_fields`: look the joined path up; on a miss drop the last token and
   * retry; an empty path that still misses fails. The multiline test puts the
   * field LIST on the left of `in`, as the source does.
   */
  function Resolve(ns: seq<string>, multiline: bool): (r: Result<Resolution>)
    ensures r.Ok? ==> r.value.fields in FieldTable.Values
    ensures r.Err? ==> r.error == UnresolvedFields
    decreases |ns|
  {
    var key := Join(ns, " ");
    if key in FieldTable then
      var fields := FieldTable[key];
      Ok(Resolution(fields, if TupleContains(MultilineKeys, StrList(fields)) then true else multiline))
    else if |ns| == 0 then Err(UnresolvedFields)
    else Resolve(ns[..|ns| - 1], multiline)
  }

  /**
   * Resolution finds the longest registered prefix of the path: it succeeds
   * exactly when some prefix (the empty one included) is registered, and then
   * yields that prefix's field set, no longer prefix being registered.
   */
  lemma {:induction false} ResolveLongestPrefix(ns: seq<string>, multiline: bool)
    ensures Resolve(ns, multiline).Ok? <==> exists k :: 0 <= k <= |ns| && RegisteredPrefix(ns, k)
    ensures Resolve(ns, multiline).Ok? ==>
              exists k :: 0 <= k <= |ns| && RegisteredPrefix(ns, k)
                          && Resolve(ns, multiline).value.fields == FieldTable[Join(ns[..k], " ")]
                          && forall j :: k < j <= |ns| ==> !RegisteredPrefix(ns, j)
    decreases |ns|
  {
    assert ns[..|ns|] == ns;
    if Join(ns, " ") in FieldTable {
      assert RegisteredPrefix(ns, |ns|);
    } else if |ns| == 0 {
      forall k | 0 <= k <= |ns| ensures !RegisteredPrefix(ns, k) {
        assert k == 0;
      }
    } else {
      var init := ns[..|ns| - 1];
      ResolveLongestPrefix(init, multiline);
      assert forall k :: 0 <= k <= |init| ==> init[..k] == ns[..k];
      assert forall k :: 0 <= k <= |init| ==> (RegisteredPrefix(init, k) <==> RegisteredPrefix(ns, k));
      assert !RegisteredPrefix(ns, |ns|);
      if Resolve(ns, multiline).Ok? {
        var k :| 0 <= k <= |init| && RegisteredPrefix(init, k)
                 && Resolve(init, multiline).value.fields == FieldTable[Join(init[..k], " ")]
                 && forall j :: k < j <= |init| ==> !RegisteredPrefix(init, j);
        assert RegisteredPrefix(ns, k);
      } else {
        forall k | 0 <= k <= |ns| ensures !RegisteredPrefix(ns, k) {
          if k < |ns| {
            assert !RegisteredPrefix(init, k);
          }
        }
      }
    }
  }

  /** The parsing mode that comes out of resolution is always the one passed in. */
  lemma {:induction false} ResolveKeepsMultiline(ns: seq<string>, multiline: bool)
    ensures Resolve(ns, multiline).Ok? ==> Resolve(ns, multiline).value.multiline == multiline
    decreases |ns|
  {
    if Join(ns, " ") !in FieldTable && |ns| > 0 {
      ResolveKeepsMultiline(ns[..|ns| - 1], multiline);
    }
  }

  /**
   * The path an action `con.list("id")` produces resolves to the registered
   * multi-line key, yet the mode stays single-line.
   */
  lemma ConListIdStaysSingleLine()
    ensures "con list id" in MultilineKeys
    ensures Resolve(["con", "list id"], false) == Ok(Resolution(FieldTable["con list id"], false))
  {
    assert Join(["con", "list id"], " ") == "con list id";
  }

  /** A path whose first token is a registered object always resolves. */
  lemma ResolveObject(obj: string, rest: seq<string>, multiline: bool)
    requires obj in FieldTable
    ensures Resolve([obj] + rest, multiline).Ok?
  {
    var ns := [obj] + rest;
    assert ns[..1] == [obj];
    assert RegisteredPrefix(ns, 1);
    ResolveLongestPrefix(ns, multiline);
  }

  /**
   * An object with a command whose joined path is not registered falls back
   * to the object's own field set, whatever the command holds.
   */
  lemma ResolveFallback(obj: string, command: string, multiline: bool)
    requires obj in FieldTable
    requires obj + " " + command !in FieldTable
    ensures Resolve([obj, command], multiline) == Ok(Resolution(FieldTable[obj], multiline))
  {
    JoinPair(obj, command, " ");
    assert [obj, command][..1] == [obj];
    ResolveKeepsMultiline([obj], multiline);
  }

  /** `_build_fields` as the source runs it: look up the joined path, or pop the last token and recurse. */
  method BuildFields(ns: seq<string>, multiline: bool) returns (r: Result<Resolution>)
    ensures r == Resolve(ns, multiline)
    decreases |ns|
  {
    var key := Join(ns, " ");
    if key in FieldTable {
      var fields := FieldTable[key];
      var flag := multiline;
      if TupleContains(MultilineKeys, StrList(fields)) {
        flag := true;
      }
      return Ok(Resolution(fields, flag));
    }
    if |ns| == 0 {
      return Err(UnresolvedFields);
    }
    var popped := ns[..|ns| - 1];
    r := BuildFields(popped, multiline);
  }
}
