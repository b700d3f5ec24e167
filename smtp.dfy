/** SMTP providers: the encrypted password attribute of the model, its serialisation
    without the password, and the admin actions that list, create, update and delete
    providers. */
module Smtp {
  import opened Wrappers
  import opened PhpStrings
  import opened Crypto
  import opened Validation
  import opened Attributes

  datatype SmtpProvider = SmtpProvider(
    id: nat,
    userId: nat,
    name: string,
    host: string,
    port: int,
    username: string,
    /** The raw column: a ciphertext or null. */
    password: Option<Ciphertext>,
    encryption: string,
    fromAddress: string,
    fromName: string,
    isGlobal: bool)

  /** `toArray()`: every attribute except the hidden password. */
  function ToArray(p: SmtpProvider): (m: map<string, Json>)
    ensures "password" !in m
    ensures m.Keys == {"id", "user_id", "name", "host", "port", "username", "encryption",
                       "from_address", "from_name", "is_global"}
    ensures m["host"] == JString(p.host) && m["username"] == JString(p.username)
  {
    map["id" := JInt(p.id), "user_id" := JInt(p.userId), "name" := JString(p.name),
        "host" := JString(p.host), "port" := JInt(p.port), "username" := JString(p.username),
        "encryption" := JString(p.encryption), "from_address" := JString(p.fromAddress),
        "from_name" := JString(p.fromName), "is_global" := JBool(p.isGlobal)]
  }

  /** The submitted provider form; the port arrives as an integer or not at all. */
  datatype SmtpForm = SmtpForm(
    name: Option<string>,
    host: Option<string>,
    port: Option<int>,
    username: Option<string>,
    password: Option<string>,
    encryption: Option<string>,
    fromAddress: Option<string>,
    fromName: Option<string>,
    isGlobal: Option<string>)

  predicate ValidEncryption(v: Option<string>) {
    v == Some("tls") || v == Some("ssl") || v == Some("none")
  }

  /** The failing fields of the rules `store` and `update` share; `store` also
      requires a password, `update` lets it be null. */
  function FormErrors(f: SmtpForm, passwordRequired: bool): (e: set<string>)
    ensures e == {} ==> f.port.Some? && 1 <= f.port.value <= 65535
    ensures e == {} ==> ValidEncryption(f.encryption)
    ensures e == {} ==> f.fromAddress.Some? && IsEmailAddress(f.fromAddress.value) && |f.fromAddress.value| <= 255
    ensures e == {} ==> ParseBoolean(f.isGlobal).Some?
    ensures e == {} ==> RequiredMax(f.name, 255) && RequiredMax(f.host, 255) && RequiredMax(f.username, 255)
                        && RequiredMax(f.fromName, 255)
    ensures e == {} ==> (passwordRequired ==> Required(f.password))
    ensures e == {} <==> (&& RequiredMax(f.name, 255) && RequiredMax(f.host, 255)
                          && IntInRange(f.port, 1, 65535).Some? && RequiredMax(f.username, 255)
                          && (passwordRequired ==> Required(f.password))
                          && Required(f.encryption) && ValidEncryption(f.encryption)
                          && Required(f.fromAddress) && IsEmailAddress(f.fromAddress.value)
                          && WithinMax(f.fromAddress, 255)
                          && RequiredMax(f.fromName, 255) && ParseBoolean(f.isGlobal).Some?)
  {
    FailsIf("name", RequiredMax(f.name, 255))
    + FailsIf("host", RequiredMax(f.host, 255))
    + FailsIf("port", IntInRange(f.port, 1, 65535).Some?)
    + FailsIf("username", RequiredMax(f.username, 255))
    + FailsIf("password", !passwordRequired || Required(f.password))
    + FailsIf("encryption", Required(f.encryption) && ValidEncryption(f.encryption))
    + FailsIf("from_address", Required(f.fromAddress) && IsEmailAddress(f.fromAddress.value)
                              && WithinMax(f.fromAddress, 255))
    + FailsIf("from_name", RequiredMax(f.fromName, 255))
    + FailsIf("is_global", ParseBoolean(f.isGlobal).Some?)
  }

  /** The global providers, newest first. */
  function GlobalNewestFirst(rows: seq<SmtpProvider>): (r: seq<SmtpProvider>)
    ensures forall p :: p in r <==> p in rows && p.isGlobal
    ensures |r| <= |rows|
  {
    if rows == [] then []
    else GlobalNewestFirst(rows[1..]) + (if rows[0].isGlobal then [rows[0]] else [])
  }

  /** Ids in strictly increasing order: rows are kept in creation order. */
  predicate Ascending(rows: seq<SmtpProvider>) {
    forall i, j :: 0 <= i < j < |rows| ==> rows[i].id < rows[j].id
  }

  /** The listing is newest first: ids strictly decrease along it. */
  lemma {:induction false} GlobalNewestFirstDescending(rows: seq<SmtpProvider>)
    requires Ascending(rows)
    ensures forall i, j :: 0 <= i < j < |GlobalNewestFirst(rows)| ==>
              GlobalNewestFirst(rows)[i].id > GlobalNewestFirst(rows)[j].id
  {
    if rows != [] {
      var tail := rows[1..];
      assert Ascending(tail) by {
        forall i, j | 0 <= i < j < |tail| ensures tail[i].id < tail[j].id {
          assert tail[i] == rows[i + 1] && tail[j] == rows[j + 1];
        }
      }
      GlobalNewestFirstDescending(tail);
      var rest := GlobalNewestFirst(tail);
      forall p | p in rest ensures p.id > rows[0].id {
        var k :| 0 <= k < |tail| && tail[k] == p;
        assert rows[k + 1] == p;
      }
    }
  }

  class SmtpTable {
    /** The providers in creation order. */
    var rows: seq<SmtpProvider>
    var nextId: nat

    ghost predicate Valid()
      reads this
    {
      Ascending(rows) && forall i :: 0 <= i < |rows| ==> rows[i].id < nextId
    }

    constructor ()
      ensures Valid() && rows == []
    {
      rows := [];
      nextId := 1;
    }

    function Find(id: nat): (r: Option<nat>)
      reads this
      ensures r.Some? ==> r.value < |rows| && rows[r.value].id == id
      ensures r.None? ==> forall i :: 0 <= i < |rows| ==> rows[i].id != id
    {
      FindIn(rows, id)
    }

    /** `index`: only the global providers, newest first. */
    function Index(): (r: seq<SmtpProvider>)
      reads this
      requires Valid()
      ensures forall p :: p in r <==> p in rows && p.isGlobal
      ensures forall i, j :: 0 <= i < j < |r| ==> r[i].id > r[j].id
    {
      GlobalNewestFirstDescending(rows);
      GlobalNewestFirst(rows)
    }

    /** `store`: the actor owns the new provider, is_global comes from the boolean
        input, and the password is stored encrypted. */
    method Store(actor: nat, f: SmtpForm) returns (r: Result<nat, Rejection>)
      requires Valid()
      modifies this
      ensures Valid()
      ensures r.Success? <==> FormErrors(f, true) == {}
      ensures r.Failure? ==> r == Failure(Invalid(FormErrors(f, true))) && unchanged(this)
      ensures r.Success? ==> rows == old(rows) + [SmtpProvider(r.value, actor, f.name.value, f.host.value,
                f.port.value, f.username.value, StoreEncrypted(f.password), f.encryption.value,
                f.fromAddress.value, f.fromName.value, ParseBoolean(f.isGlobal).value)]
      ensures r.Success? ==> forall i :: 0 <= i < |old(rows)| ==> old(rows)[i].id != r.value
    {
      var errors := FormErrors(f, true);
      if errors != {} {
        return Failure(Invalid(errors));
      }
      var id := nextId;
      rows := rows + [SmtpProvider(id, actor, f.name.value, f.host.value, f.port.value, f.username.value,
                                   StoreEncrypted(f.password), f.encryption.value, f.fromAddress.value,
                                   f.fromName.value, ParseBoolean(f.isGlobal).value)];
      nextId := id + 1;
      r := Success(id);
    }

    /** `update`: an empty, "0" or missing password keeps the stored one; a non-empty
        one replaces it; the owner never changes. */
    method Update(id: nat, f: SmtpForm) returns (r: Outcome<Rejection>)
      requires Valid()
      modifies this
      ensures Valid()
      ensures old(Find(id)).None? ==> r == Fail(NotFound)
      ensures r.Pass? <==> old(Find(id)).Some? && FormErrors(f, false) == {}
      ensures r.Fail? ==> unchanged(this)
      ensures r.Pass? ==>
                var k := old(Find(id)).value;
                var p := old(rows)[k];
                && rows == old(rows)[k := p.(name := f.name.value, host := f.host.value, port := f.port.value,
                                            username := f.username.value, encryption := f.encryption.value,
                                            fromAddress := f.fromAddress.value, fromName := f.fromName.value,
                                            isGlobal := ParseBoolean(f.isGlobal).value,
                                            password := if f.password.Some? && Truthy(f.password.value)
                                                        then StoreEncrypted(f.password) else p.password)]
                && rows[k].userId == p.userId
      ensures unchanged(`nextId)
    {
      var k := Find(id);
      if k.None? {
        return Fail(NotFound);
      }
      var errors := FormErrors(f, false);
      if errors != {} {
        return Fail(Invalid(errors));
      }
      var p := rows[k.value];
      var password := p.password;
      if f.password.Some? && Truthy(f.password.value) {
        password := StoreEncrypted(f.password);
      }
      rows := rows[k.value := p.(name := f.name.value, host := f.host.value, port := f.port.value,
                                 username := f.username.value, encryption := f.encryption.value,
                                 fromAddress := f.fromAddress.value, fromName := f.fromName.value,
                                 isGlobal := ParseBoolean(f.isGlobal).value, password := password)];
      r := Pass;
    }

    /** `destroy`: removes the provider and keeps the order of the others. */
    method Destroy(id: nat) returns (r: Outcome<Rejection>)
      requires Valid()
      modifies this
      ensures Valid()
      ensures r.Pass? <==> old(Find(id)).Some?
      ensures r.Fail? ==> r == Fail(NotFound) && unchanged(this)
      ensures r.Pass? ==> var k := old(Find(id)).value; rows == old(rows)[..k] + old(rows)[k + 1..]
      ensures unchanged(`nextId)
    {
      var k := Find(id);
      if k.None? {
        return Fail(NotFound);
      }
      rows := rows[..k.value] + rows[k.value + 1..];
      r := Pass;
    }
  }

  function FindIn(rows: seq<SmtpProvider>, id: nat): (r: Option<nat>)
    ensures r.Some? ==> r.value < |rows| && rows[r.value].id == id
    ensures r.None? ==> forall i :: 0 <= i < |rows| ==> rows[i].id != id
  {
    if rows == [] then None
    else if rows[0].id == id then Some(0)
    else
      var r := FindIn(rows[1..], id);
      if r.Some? then Some(r.value + 1) else None
  }
}
