/** Depth-limited redaction of sensitive fields in a JSON tree. */
module Redaction {
  /** A finite JSON value; an object is a list of entries whose keys are distinct. */
  datatype Json =
    | Atom(text: string)
    | Arr(items: seq<Json>)
    | Obj(entries: seq<Entry>)

  datatype Entry = Entry(key: string, value: Json)

  const SENSITIVE_KEYS := {
    "password", "currentPassword", "newPassword", "confirmPassword", "passwordHash", "secret", "apiKey", "token",
    "bearerToken", "accessKey", "clientSecret", "refreshToken", "accessToken", "encryptedConfig", "authorization",
    "secretAccessKey", "cookie", "sessionToken", "encryptionKey"
  }

  const MAX_REDACT_DEPTH := 5

  const REDACTED := Atom("[REDACTED]")

  // ---------- the utility, as functions ----------

  function RedactEntries(entries: seq<Entry>, depth: nat): (r: seq<Entry>)
    ensures |r| == |entries|
    decreases entries, 1
  {
    seq(|entries|, i requires 0 <= i < |entries| => Entry(entries[i].key, RedactValue(entries[i], depth)))
  }

  function RedactValue(entry: Entry, depth: nat): Json
    decreases entry, 0
  {
    if entry.key in SENSITIVE_KEYS then REDACTED
    else if depth < MAX_REDACT_DEPTH && entry.value.Arr? then
      Arr(seq(|entry.value.items|, i requires 0 <= i < |entry.value.items| => RedactItem(entry.value.items[i], depth)))
    else if depth < MAX_REDACT_DEPTH && entry.value.Obj? then Obj(RedactEntries(entry.value.entries, depth + 1))
    else entry.value
  }

  /** Elements of an array: objects are redacted one level down, everything else is kept. */
  function RedactItem(item: Json, depth: nat): Json
    decreases item, 0
  {
    if item.Obj? then Obj(RedactEntries(item.entries, depth + 1)) else item
  }

  // ---------- an independent description: paths ----------

  /** One step down: into a field, or into an element of an array field. */
  datatype Step = Field(i: nat) | Element(i: nat, k: nat)

  /** The object one step below, if the step leads to one. */
  function Below(entries: seq<Entry>, step: Step): (r: (bool, seq<Entry>))
  {
    match step
    case Field(i) =>
      if i < |entries| && entries[i].value.Obj? then (true, entries[i].value.entries) else (false, [])
    case Element(i, k) =>
      if i < |entries| && entries[i].value.Arr? && k < |entries[i].value.items| && entries[i].value.items[k].Obj?
      then (true, entries[i].value.items[k].entries) else (false, [])
  }

  /** No key on the way down is sensitive. */
  predicate Open(entries: seq<Entry>, path: seq<Step>)
    decreases |path|
  {
    path == [] ||
    (path[0].i < |entries| && entries[path[0].i].key !in SENSITIVE_KEYS && Below(entries, path[0]).0
     && Open(Below(entries, path[0]).1, path[1..]))
  }

  /** The object a path leads to. */
  function At(entries: seq<Entry>, path: seq<Step>): seq<Entry>
    requires Open(entries, path)
    decreases |path|
  {
    if path == [] then entries else At(Below(entries, path[0]).1, path[1..])
  }

  lemma RedactedStep(entries: seq<Entry>, depth: nat, step: Step)
    requires depth < MAX_REDACT_DEPTH && step.i < |entries| && entries[step.i].key !in SENSITIVE_KEYS
    requires Below(entries, step).0
    ensures Below(RedactEntries(entries, depth), step) == (true, RedactEntries(Below(entries, step).1, depth + 1))
  {
    var r := RedactEntries(entries, depth);
    assert r[step.i].value == RedactValue(entries[step.i], depth);
  }

  /** Down to level 5, every object reached through open keys is the redaction of the object that was there. */
  lemma {:induction false} RedactedAt(entries: seq<Entry>, depth: nat, path: seq<Step>)
    requires Open(entries, path) && depth + |path| <= MAX_REDACT_DEPTH
    ensures var r := RedactEntries(entries, depth);
            Open(r, path) && At(r, path) == RedactEntries(At(entries, path), depth + |path|)
    decreases |path|
  {
    if path != [] {
      RedactedStep(entries, depth, path[0]);
      RedactedAt(Below(entries, path[0]).1, depth + 1, path[1..]);
    }
  }

  /**
   At levels 0 to 5 every sensitive field is replaced, whatever its value; every other atom, and below
   level 5 every other value, is what it was; keys and their order never change.
   */
  lemma FieldsAfterRedaction(root: seq<Entry>, path: seq<Step>, i: nat)
    requires Open(root, path) && |path| <= 5 && i < |At(root, path)|
    ensures var r := RedactEntries(root, 0);
            && Open(r, path) && |At(r, path)| == |At(root, path)|
            && var before, after := At(root, path)[i], At(r, path)[i];
            && after.key == before.key
            && (before.key in SENSITIVE_KEYS ==> after.value == Atom("[REDACTED]"))
            && (before.key !in SENSITIVE_KEYS && (before.value.Atom? || |path| == 5) ==>
                  after.value == before.value)
            && (before.key !in SENSITIVE_KEYS && before.value.Obj? ==> after.value.Obj?)
            && (before.key !in SENSITIVE_KEYS && before.value.Arr? ==>
                  after.value.Arr? && |after.value.items| == |before.value.items|
                  && forall k :: 0 <= k < |before.value.items| && !before.value.items[k].Obj? ==>
                       after.value.items[k] == before.value.items[k])
  {
    RedactedAt(root, 0, path);
    var before, depth := At(root, path)[i], |path|;
    assert At(RedactEntries(root, 0), path)[i] == Entry(before.key, RedactValue(before, depth));
    if before.value.Arr? {
      forall k | 0 <= k < |before.value.items| && !before.value.items[k].Obj?
        ensures RedactItem(before.value.items[k], depth) == before.value.items[k]
      {
      }
    }
  }

  /** The keys, in the order the constant lists them, and no others. */
  lemma SensitiveKeys(key: string)
    ensures key in SENSITIVE_KEYS <==>
              key in ["password", "currentPassword", "newPassword", "confirmPassword", "passwordHash", "secret", "apiKey",
                      "token", "bearerToken", "accessKey", "clientSecret", "refreshToken", "accessToken", "encryptedConfig",
                      "authorization", "secretAccessKey", "cookie", "sessionToken", "encryptionKey"]
  {
  }

  // ---------- idempotence ----------

  lemma {:induction false} RedactTwiceEntries(entries: seq<Entry>, depth: nat)
    ensures RedactEntries(RedactEntries(entries, depth), depth) == RedactEntries(entries, depth)
    decreases entries, 1
  {
    var once := RedactEntries(entries, depth);
    var twice := RedactEntries(once, depth);
    forall i | 0 <= i < |entries| ensures twice[i] == once[i] {
      RedactTwiceValue(entries[i], depth);
      assert once[i] == Entry(entries[i].key, RedactValue(entries[i], depth));
    }
  }

  lemma {:induction false} RedactTwiceValue(entry: Entry, depth: nat)
    ensures RedactValue(Entry(entry.key, RedactValue(entry, depth)), depth) == RedactValue(entry, depth)
    decreases entry, 0
  {
    if entry.key !in SENSITIVE_KEYS && depth < MAX_REDACT_DEPTH {
      if entry.value.Arr? {
        RedactTwiceItems(entry.value.items, depth);
      } else if entry.value.Obj? {
        RedactTwiceEntries(entry.value.entries, depth + 1);
      }
    }
  }

  lemma {:induction false} RedactTwiceItems(items: seq<Json>, depth: nat)
    ensures forall k :: 0 <= k < |items| ==> RedactItem(RedactItem(items[k], depth), depth) == RedactItem(items[k], depth)
    decreases items, 1
  {
    forall k | 0 <= k < |items|
      ensures RedactItem(RedactItem(items[k], depth), depth) == RedactItem(items[k], depth)
    {
      if items[k].Obj? { RedactTwiceEntries(items[k].entries, depth + 1); }
    }
  }

  // ---------- the utility, as the loop it is ----------

  predicate DistinctKeys(entries: seq<Entry>) {
    forall i, j :: 0 <= i < j < |entries| ==> entries[i].key != entries[j].key
  }

  /** In every object of the tree the keys are distinct, as in any parsed or constructed object. */
  predicate WellFormed(entries: seq<Entry>)
    decreases entries, 1
  {
    DistinctKeys(entries) && forall i :: 0 <= i < |entries| ==> WellFormedValue(entries[i].value)
  }

  predicate WellFormedValue(value: Json)
    decreases value, 0
  {
    match value
    case Atom(_) => true
    case Arr(items) => forall k :: 0 <= k < |items| ==> WellFormedValue(items[k])
    case Obj(entries) => WellFormed(entries)
  }

  /** `Map.set` on an insertion-ordered map. */
  function MapSet(m: seq<Entry>, key: string, value: Json): seq<Entry> {
    if m == [] then [Entry(key, value)]
    else if m[0].key == key then [Entry(key, value)] + m[1..]
    else [m[0]] + MapSet(m[1..], key, value)
  }

  lemma {:induction false} SetNewKeyAppends(m: seq<Entry>, key: string, value: Json)
    requires forall i :: 0 <= i < |m| ==> m[i].key != key
    ensures MapSet(m, key, value) == m + [Entry(key, value)]
  {
    if m != [] {
      SetNewKeyAppends(m[1..], key, value);
      assert m == [m[0]] + m[1..];
    }
  }

  /** The loop over the entries of an object, filling an insertion-ordered map, with recursion below it. */
  method RedactSensitiveFields(tree: seq<Entry>, depth: nat) returns (sanitized: seq<Entry>)
    requires WellFormed(tree)
    ensures sanitized == RedactEntries(tree, depth)
    decreases tree, 1
  {
    sanitized := [];
    for i := 0 to |tree|
      invariant sanitized == RedactEntries(tree, depth)[..i]
    {
      var entry := tree[i];
      var value := entry.value;
      if entry.key in SENSITIVE_KEYS {
        value := REDACTED;
      } else if depth < MAX_REDACT_DEPTH && entry.value.Arr? {
        var items := RedactItems(entry.value.items, depth);
        value := Arr(items);
        assert items == RedactValue(entry, depth).items;
      } else if depth < MAX_REDACT_DEPTH && entry.value.Obj? {
        var below := RedactSensitiveFields(entry.value.entries, depth + 1);
        value := Obj(below);
      }
      assert RedactEntries(tree, depth)[i] == Entry(entry.key, value);
      SetNewKeyAppends(sanitized, entry.key, value);
      sanitized := MapSet(sanitized, entry.key, value);
    }
  }

  method RedactItems(items: seq<Json>, depth: nat) returns (redacted: seq<Json>)
    requires forall k :: 0 <= k < |items| ==> WellFormedValue(items[k])
    ensures |redacted| == |items| && forall k :: 0 <= k < |items| ==> redacted[k] == RedactItem(items[k], depth)
    decreases items, 1
  {
    redacted := [];
    for k := 0 to |items|
      invariant |redacted| == k && forall n :: 0 <= n < k ==> redacted[n] == RedactItem(items[n], depth)
    {
      if items[k].Obj? {
        var below := RedactSensitiveFields(items[k].entries, depth + 1);
        redacted := redacted + [Obj(below)];
      } else {
        redacted := redacted + [items[k]];
      }
    }
  }
}
