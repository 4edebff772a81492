/** Moving passwords to HashiCorp Vault and back (kolla_ansible/cmd/writepwd.py, kolla_ansible/cmd/readpwd.py). */
module VaultPasswords {
  import opened Common
  import opened OrderedDict

  /** A value in the passwords file or in a secret. */
  datatype Value = Null | Bool(b: bool) | Num(n: int) | Str(s: string) | List(items: seq<Value>) | Map(entries: map<string, Value>)

  type Secret = map<string, Value>

  /** Python's truth of a value. */
  predicate Truthy(v: Value) {
    match v
    case Null => false
    case Bool(b) => b
    case Num(n) => n != 0
    case Str(s) => s != ""
    case List(items) => items != []
    case Map(entries) => entries != map[]
  }

  /** The key/value store.  It holds one secret, a dictionary, under each path, and takes nothing but dictionaries. */
  class Vault {
    var secrets: map<string, Secret>
    /** The paths that have been written to, in order. */
    ghost var written: seq<string>

    method ReadSecret(path: string) returns (remote: Option<Secret>)
      ensures remote == if path in secrets then Some(secrets[path]) else None
    {
      remote := if path in secrets then Some(secrets[path]) else None;
    }

    method CreateOrUpdateSecret(path: string, secret: Value) returns (ok: bool)
      modifies this
      ensures ok <==> secret.Map?
      ensures secrets == (if ok then old(secrets)[path := secret.entries] else old(secrets))
      ensures written == if ok then old(written) + [path] else old(written)
    {
      ok := secret.Map?;
      if ok {
        secrets := secrets[path := secret.entries];
        written := written + [path];
      }
    }
  }

  function Path(kvPath: string, key: string): string {
    kvPath + "/" + key
  }

  /** What is stored for a value: a string is wrapped. */
  function Encoded(v: Value): Value {
    if v.Str? then Map(map["password" := v]) else v
  }

  /** What is read back from the secret, if there is one. */
  function Decoded(remote: Option<Secret>): Value {
    if remote.None? then Null
    else if "password" in remote.value then remote.value["password"]
    else Map(remote.value)
  }

  /** Values that Vault takes, or that are not even offered to it. */
  predicate Storable(v: Value) {
    Truthy(v) ==> v.Str? || v.Map?
  }

  /** The store after the given keys have been written. */
  function Stored(secrets: map<string, Secret>, kvPath: string, keys: seq<string>,
                  passwords: map<string, Value>): map<string, Secret>
    requires forall k :: k in keys ==> k in passwords && Storable(passwords[k])
  {
    if keys == [] then secrets
    else
      var before := Stored(secrets, kvPath, keys[..|keys| - 1], passwords);
      var last := keys[|keys| - 1];
      assert last in keys;
      var v := passwords[last];
      assert Storable(v) && (Truthy(v) ==> Encoded(v).Map?);
      if Truthy(v) then before[Path(kvPath, last) := Encoded(v).entries] else before
  }

  /** Whether writing the key has anything to store. */
  predicate Stale(secrets: map<string, Secret>, kvPath: string, k: string, v: Value) {
    Truthy(v) && (Path(kvPath, k) !in secrets || Map(secrets[Path(kvPath, k)]) != Encoded(v))
  }

  /** The paths of the stale keys. */
  function StalePaths(secrets: map<string, Secret>, kvPath: string, keys: seq<string>,
                      passwords: map<string, Value>): seq<string>
    requires forall k :: k in keys ==> k in passwords
  {
    if keys == [] then []
    else
      var last := keys[|keys| - 1];
      StalePaths(secrets, kvPath, keys[..|keys| - 1], passwords) +
      if Stale(secrets, kvPath, last, passwords[last]) then [Path(kvPath, last)] else []
  }

  lemma {:induction false} NothingStale(secrets: map<string, Secret>, kvPath: string, keys: seq<string>,
                                        passwords: map<string, Value>)
    requires forall k :: k in keys ==> k in passwords && Storable(passwords[k]) && !Stale(secrets, kvPath, k, passwords[k])
    ensures StalePaths(secrets, kvPath, keys, passwords) == [] && Stored(secrets, kvPath, keys, passwords) == secrets
  {
    if keys != [] {
      var last := keys[|keys| - 1];
      NothingStale(secrets, kvPath, keys[..|keys| - 1], passwords);
      assert last in keys;
      if Truthy(passwords[last]) {
        assert secrets[Path(kvPath, last) := Encoded(passwords[last]).entries] == secrets;
      }
    }
  }

  lemma PathIsInjective(kvPath: string, k: string, k': string)
    ensures Path(kvPath, k) == Path(kvPath, k') ==> k == k'
  {
    assert Path(kvPath, k)[|kvPath| + 1..] == k;
    assert Path(kvPath, k')[|kvPath| + 1..] == k';
  }

  // What is written, value by value

  /** A non-empty string is wrapped, a non-empty dictionary is stored as it is. */
  predicate Holds(secrets: map<string, Secret>, p: string, v: Value) {
    && (v.Str? && v.s != "" ==> p in secrets && secrets[p] == map["password" := v])
    && (v.Map? && v.entries != map[] ==> p in secrets && secrets[p] == v.entries)
  }

  predicate IsEmpty(v: Value) {
    v == Null || v == Str("") || v == List([]) || v == Map(map[]) || v == Bool(false) || v == Num(0)
  }

  predicate SameAt(before: map<string, Secret>, after: map<string, Secret>, p: string) {
    (p in after <==> p in before) && (p in before ==> after[p] == before[p])
  }

  /** What Vault does not take: no dictionary, and not empty. */
  predicate Refused(v: Value) {
    !IsEmpty(v) && !v.Str? && !v.Map?
  }

  /** Of the first keys, each non-empty value is where it belongs; the path of an empty value is left alone. */
  lemma WhatIsWritten(secrets: map<string, Secret>, kvPath: string, passwords: Dict<string, Value>, done: nat)
    requires done <= |passwords.keys| && forall k :: k in passwords.keys ==> k in passwords.vals
    requires forall i :: 0 <= i < done ==> Storable(passwords.vals[passwords.keys[i]])
    ensures var after := Stored(secrets, kvPath, passwords.keys[..done], passwords.vals);
            && (forall i :: 0 <= i < done ==> Holds(after, kvPath + "/" + passwords.keys[i], passwords.vals[passwords.keys[i]]))
            && (forall k :: k in passwords.keys && IsEmpty(passwords.vals[k]) ==> SameAt(secrets, after, kvPath + "/" + k))
    ensures done < |passwords.keys| && !Storable(passwords.vals[passwords.keys[done]]) ==>
            Refused(passwords.vals[passwords.keys[done]])
  {
    hide Stored, SameAt;
    var keys := passwords.keys[..done];
    var after := Stored(secrets, kvPath, keys, passwords.vals);
    StoredAt(secrets, kvPath, keys, passwords.vals);
    forall i | 0 <= i < done
      ensures Holds(after, kvPath + "/" + passwords.keys[i], passwords.vals[passwords.keys[i]])
    {
      assert passwords.keys[i] in keys && Path(kvPath, passwords.keys[i]) == kvPath + "/" + passwords.keys[i];
    }
    forall k | k in passwords.keys && IsEmpty(passwords.vals[k])
      ensures SameAt(secrets, after, kvPath + "/" + k)
    {
      EmptyIsLeftAlone(secrets, kvPath, keys, passwords.vals, k);
    }
  }

  lemma EmptyIsLeftAlone(secrets: map<string, Secret>, kvPath: string, keys: seq<string>, passwords: map<string, Value>,
                         k: string)
    requires (forall k :: k in keys ==> k in passwords && Storable(passwords[k])) && k in passwords && IsEmpty(passwords[k])
    ensures SameAt(secrets, Stored(secrets, kvPath, keys, passwords), kvPath + "/" + k)
  {
    hide Stored, Storable, Path, Encoded;
    StoredAt(secrets, kvPath, keys, passwords);
    PathIs(kvPath, k);
    assert !Truthy(passwords[k]);
    hide Truthy, IsEmpty;
    forall k' | k' in keys && Truthy(passwords[k'])
      ensures Path(kvPath, k) != Path(kvPath, k')
    {
      PathIsInjective(kvPath, k, k');
    }
  }

  lemma PathIs(kvPath: string, k: string)
    ensures Path(kvPath, k) == kvPath + "/" + k
  {
  }

  /** And read back: a non-empty string, and a non-empty dictionary without an entry "password", as itself. */
  lemma ReadsBack(secrets: map<string, Secret>, kvPath: string, k: string, v: Value)
    requires Holds(secrets, kvPath + "/" + k, v) && !IsEmpty(v)
    requires v.Str? || (v.Map? && "password" !in v.entries)
    ensures ReadBack(secrets, kvPath, k) == v
  {
  }

  /** Writes the passwords, those that are stale.  It stops at the first value that Vault refuses, with the earlier
      keys written. */
  method WritePwd(vault: Vault, kvPath: string, passwords: Dict<string, Value>) returns (ok: bool, ghost done: nat)
    modifies vault
    ensures forall k :: k in passwords.keys ==> k in passwords.vals
    ensures done <= |passwords.keys| && forall i :: 0 <= i < done ==> Storable(passwords.vals[passwords.keys[i]])
    ensures ok <==> done == |passwords.keys|
    ensures !ok ==> !Storable(passwords.vals[passwords.keys[done]])
    ensures vault.secrets == Stored(old(vault.secrets), kvPath, passwords.keys[..done], passwords.vals)
    ensures forall i :: 0 <= i < done ==>
              Holds(vault.secrets, kvPath + "/" + passwords.keys[i], passwords.vals[passwords.keys[i]])
    ensures forall k :: k in passwords.keys && IsEmpty(passwords.vals[k]) ==>
              SameAt(old(vault.secrets), vault.secrets, kvPath + "/" + k)
    ensures !ok ==> Refused(passwords.vals[passwords.keys[done]])
    ensures vault.written ==
            old(vault.written) + StalePaths(old(vault.secrets), kvPath, passwords.keys[..done], passwords.vals)
  {
    hide Stale, StalePaths, Stored;
    NoKeys(vault.secrets, kvPath, passwords.vals);
    assert vault.written + [] == vault.written;
    KeysHaveValues(passwords);
    done := 0;
    for i := 0 to |passwords.keys|
      invariant done == i && forall j :: 0 <= j < i ==> Storable(passwords.vals[passwords.keys[j]])
      invariant vault.secrets == Stored(old(vault.secrets), kvPath, passwords.keys[..i], passwords.vals)
      invariant vault.written ==
                old(vault.written) + StalePaths(old(vault.secrets), kvPath, passwords.keys[..i], passwords.vals)
    {
      var key := passwords.keys[i];
      var value := passwords.vals[key];
      NextPassword(old(vault.secrets), kvPath, passwords, i);
      Regroup(old(vault.written), StalePaths(old(vault.secrets), kvPath, passwords.keys[..i], passwords.vals), Path(kvPath, key));
      if Truthy(value) {
        if value.Str? {
          value := Map(map["password" := value]);
        }
        var remoteValue := vault.ReadSecret(Path(kvPath, key));
        if remoteValue.None? || Map(remoteValue.value) != value {
          ok := vault.CreateOrUpdateSecret(Path(kvPath, key), value);
          if !ok {
            WhatIsWritten(old(vault.secrets), kvPath, passwords, i);
            return;
          }
        } else {
          assert vault.secrets[Path(kvPath, key) := value.entries] == vault.secrets;
        }
      }
      done := i + 1;
    }
    assert passwords.keys[..|passwords.keys|] == passwords.keys;
    WhatIsWritten(old(vault.secrets), kvPath, passwords, |passwords.keys|);
    ok := true;
  }

  lemma NoKeys(secrets: map<string, Secret>, kvPath: string, passwords: map<string, Value>)
    ensures Stored(secrets, kvPath, [], passwords) == secrets && StalePaths(secrets, kvPath, [], passwords) == []
  {
  }

  /** One more key: it is stale now exactly if it was at the start, and is written just then. */
  lemma NextPassword(secrets: map<string, Secret>, kvPath: string, passwords: Dict<string, Value>, i: nat)
    requires i < |passwords.keys| && forall k :: k in passwords.keys ==> k in passwords.vals
    requires forall j :: 0 <= j < i ==> Storable(passwords.vals[passwords.keys[j]])
    ensures var key, now := passwords.keys[i], Stored(secrets, kvPath, passwords.keys[..i], passwords.vals);
            var v, p := passwords.vals[key], Path(kvPath, key);
            && StalePaths(secrets, kvPath, passwords.keys[..i + 1], passwords.vals) ==
               StalePaths(secrets, kvPath, passwords.keys[..i], passwords.vals) +
               (if Truthy(v) && (p !in now || Map(now[p]) != Encoded(v)) then [p] else [])
            && (Storable(v) ==> Stored(secrets, kvPath, passwords.keys[..i + 1], passwords.vals) ==
                                if Truthy(v) then now[p := Encoded(v).entries] else now)
  {
    hide Encoded;
    assert passwords.keys[..i + 1][..i] == passwords.keys[..i];
    NotYetWritten(secrets, kvPath, passwords, i);
  }

  lemma NotYetWritten(secrets: map<string, Secret>, kvPath: string, passwords: Dict<string, Value>, i: nat)
    requires i < |passwords.keys| && forall k :: k in passwords.keys ==> k in passwords.vals
    requires forall j :: 0 <= j < i ==> Storable(passwords.vals[passwords.keys[j]])
    ensures var p, now := Path(kvPath, passwords.keys[i]), Stored(secrets, kvPath, passwords.keys[..i], passwords.vals);
            (p in now <==> p in secrets) && (p in secrets ==> now[p] == secrets[p])
  {
    hide Stored, Path, Storable;
    NextKey(passwords, i);
    StoredAt(secrets, kvPath, passwords.keys[..i], passwords.vals);
    forall k | k in passwords.keys[..i]
      ensures Path(kvPath, passwords.keys[i]) != Path(kvPath, k)
    {
      PathIsInjective(kvPath, k, passwords.keys[i]);
    }
  }

  /** Reads the passwords back under the keys of the file. */
  method ReadPwd(vault: Vault, kvPath: string, passwords: Dict<string, Value>) returns (result: Dict<string, Value>)
    ensures result.keys == passwords.keys
    ensures forall k :: k in passwords.keys ==> IsReadBack(vault.secrets, kvPath, result.vals, k)
  {
    result := Empty();
    for i := 0 to |passwords.keys|
      invariant result.keys == passwords.keys[..i]
      invariant forall k :: k in passwords.keys[..i] ==> IsReadBack(vault.secrets, kvPath, result.vals, k)
    {
      var passwordKey := passwords.keys[i];
      var passwordData := vault.ReadSecret(Path(kvPath, passwordKey));
      var value := Null;
      if passwordData.Some? {
        value := if "password" in passwordData.value then passwordData.value["password"] else Map(passwordData.value);
      }
      PutKeys(result, passwordKey, value);
      NextKey(passwords, i);
      result := Put(result, passwordKey, value);
    }
  }

  lemma NextKey(passwords: Dict<string, Value>, i: nat)
    requires i < |passwords.keys|
    ensures passwords.keys[i] !in passwords.keys[..i]
    ensures passwords.keys[..i + 1] == passwords.keys[..i] + [passwords.keys[i]]
  {
  }

  predicate IsReadBack(secrets: map<string, Secret>, kvPath: string, result: map<string, Value>, k: string) {
    k in result && result[k] == ReadBack(secrets, kvPath, k)
  }

  function ReadBack(secrets: map<string, Secret>, kvPath: string, k: string): Value {
    Decoded(if Path(kvPath, k) in secrets then Some(secrets[Path(kvPath, k)]) else None)
  }

  // ----- The round trip -----

  /** Writing affects exactly the paths of the keys with a truthy value. */
  lemma {:induction false} StoredAt(secrets: map<string, Secret>, kvPath: string, keys: seq<string>,
                                    passwords: map<string, Value>)
    requires forall k :: k in keys ==> k in passwords && Storable(passwords[k])
    ensures var after := Stored(secrets, kvPath, keys, passwords);
            && (forall k :: k in keys && Truthy(passwords[k]) ==>
                  Path(kvPath, k) in after && after[Path(kvPath, k)] == Encoded(passwords[k]).entries)
            && (forall p :: (forall k :: k in keys && Truthy(passwords[k]) ==> p != Path(kvPath, k)) ==>
                  (p in after <==> p in secrets) && (p in secrets ==> after[p] == secrets[p]))
  {
    if keys != [] {
      var init, last := keys[..|keys| - 1], keys[|keys| - 1];
      StoredAt(secrets, kvPath, init, passwords);
      assert forall k :: k in keys <==> k in init || k == last;
      forall k
        ensures Path(kvPath, k) == Path(kvPath, last) ==> k == last
      {
        PathIsInjective(kvPath, k, last);
      }
    }
  }

  /** Exactly when a value comes back as it was: a string, or a dictionary without an entry "password", or a value
      that is not written at all but is what the store already had. */
  predicate Survives(secrets: map<string, Secret>, kvPath: string, k: string, v: Value) {
    if IsEmpty(v) then ReadBack(secrets, kvPath, k) == v
    else v.Str? || (v.Map? && "password" !in v.entries)
  }

  lemma PartIsNotWhole(v: Value, k: string)
    requires v.Map? && k in v.entries
    ensures v.entries[k] != v
  {
  }

  /** Round trip: whatever the store held before, after writing the file's passwords each key reads back as the same
      value exactly when the value survives. */
  lemma RoundTrip(secrets: map<string, Secret>, kvPath: string, passwords: Dict<string, Value>, k: string)
    requires forall k :: k in passwords.keys ==> k in passwords.vals && Storable(passwords.vals[k])
    requires k in passwords.keys
    ensures ReadBack(Stored(secrets, kvPath, passwords.keys, passwords.vals), kvPath, k) == passwords.vals[k] <==>
            Survives(secrets, kvPath, k, passwords.vals[k])
  {
    var v := passwords.vals[k];
    StoredAt(secrets, kvPath, passwords.keys, passwords.vals);
    if Truthy(v) {
      if v.Map? && "password" in v.entries {
        PartIsNotWhole(v, "password");
      }
    } else {
      forall k' | k' in passwords.keys && Truthy(passwords.vals[k'])
        ensures Path(kvPath, k) != Path(kvPath, k')
      {
        PathIsInjective(kvPath, k, k');
      }
    }
  }

  /** Writing a second time has nothing to store, and paths that belong to no key of the file are left alone. */
  lemma SecondWriteIsIdle(secrets: map<string, Secret>, kvPath: string, passwords: Dict<string, Value>, k: string,
                          p: string)
    requires forall k :: k in passwords.keys ==> k in passwords.vals && Storable(passwords.vals[k])
    ensures var after := Stored(secrets, kvPath, passwords.keys, passwords.vals);
            && (k in passwords.keys ==> !Stale(after, kvPath, k, passwords.vals[k]))
            && ((forall k :: k in passwords.keys ==> p != Path(kvPath, k)) ==>
                  (p in after <==> p in secrets) && (p in secrets ==> after[p] == secrets[p]))
  {
    StoredAt(secrets, kvPath, passwords.keys, passwords.vals);
  }

  /** The programs in sequence: the file that readpwd writes equals the one writepwd read exactly when all of its
      values survive, and a second writepwd stores nothing. */
  method WriteTwiceThenRead(vault: Vault, kvPath: string, passwords: Dict<string, Value>)
    returns (result: Dict<string, Value>, ghost between: seq<string>)
    requires forall k :: k in passwords.keys ==> k in passwords.vals && Storable(passwords.vals[k])
    modifies vault
    ensures result == passwords <==>
            forall k :: k in passwords.keys ==> Survives(old(vault.secrets), kvPath, k, passwords.vals[k])
    ensures between == old(vault.written) + StalePaths(old(vault.secrets), kvPath, passwords.keys, passwords.vals)
    ensures vault.written == between
  {
    hide Stored, Stale, StalePaths, Storable, Survives, IsReadBack;
    ghost var before := vault.secrets;
    var ok;
    ghost var done;
    ok, done := WritePwd(vault, kvPath, passwords);
    assert passwords.keys[..|passwords.keys|] == passwords.keys;
    between := vault.written;
    NothingIsLeft(before, kvPath, passwords);
    ok, done := WritePwd(vault, kvPath, passwords);
    assert between + [] == between;
    result := ReadPwd(vault, kvPath, passwords);
    FileComesBack(before, kvPath, passwords, result);
  }

  lemma NothingIsLeft(secrets: map<string, Secret>, kvPath: string, passwords: Dict<string, Value>)
    requires forall k :: k in passwords.keys ==> k in passwords.vals && Storable(passwords.vals[k])
    ensures var after := Stored(secrets, kvPath, passwords.keys, passwords.vals);
            StalePaths(after, kvPath, passwords.keys, passwords.vals) == [] &&
            Stored(after, kvPath, passwords.keys, passwords.vals) == after
  {
    hide Stored, Stale, StalePaths, Storable;
    var after := Stored(secrets, kvPath, passwords.keys, passwords.vals);
    forall k | k in passwords.keys
      ensures !Stale(after, kvPath, k, passwords.vals[k])
    {
      SecondWriteIsIdle(secrets, kvPath, passwords, k, "");
    }
    NothingStale(after, kvPath, passwords.keys, passwords.vals);
  }

  lemma FileComesBack(secrets: map<string, Secret>, kvPath: string, passwords: Dict<string, Value>,
                      result: Dict<string, Value>)
    requires forall k :: k in passwords.keys ==> k in passwords.vals && Storable(passwords.vals[k])
    requires result.keys == passwords.keys
    requires forall k :: k in passwords.keys ==>
      IsReadBack(Stored(secrets, kvPath, passwords.keys, passwords.vals), kvPath, result.vals, k)
    ensures result == passwords <==> forall k :: k in passwords.keys ==> Survives(secrets, kvPath, k, passwords.vals[k])
  {
    hide Stored, Storable, Survives;
    KeysHaveValues(passwords);
    KeysHaveValues(result);
    forall k | k in passwords.keys
      ensures result.vals[k] == passwords.vals[k] <==> Survives(secrets, kvPath, k, passwords.vals[k])
    {
      RoundTrip(secrets, kvPath, passwords, k);
    }
    if forall k :: k in passwords.keys ==> Survives(secrets, kvPath, k, passwords.vals[k]) {
      assert result.vals == passwords.vals;
    }
  }
}
