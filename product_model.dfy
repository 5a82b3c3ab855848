/**
 * The data-access layer over an abstract store. The store keeps its rows in a
 * map keyed by id and remembers the order in which they were created (the
 * `created_at` ordering). What the database client does is stated here as the
 * store's semantics: every call may fail with an error of the environment's
 * choosing, create stores only `nome` and `valor` under a fresh id, update
 * overwrites only the supplied fields, delete removes the row.
 */
module ProductModel {
  import opened Wrappers
  import opened Json
  import opened Api

  /** The five store calls. */
  datatype StoreOp = OpGetAll | OpGetById | OpCreate | OpUpdate | OpDelete

  /** The client refuses arguments that do not fit the product columns before it reaches the database. */
  const ClientValidationError := Error("PrismaClientValidationError", None, "Invalid arguments", "")
  /** Inserting a row whose id is already taken. */
  const UniqueConstraintError := Error("PrismaClientKnownRequestError", Some("P2002"), "Unique constraint failed on the fields: (`id`)", "")
  /** Updating or deleting a row that does not exist. */
  const RecordNotFoundError := Error("PrismaClientKnownRequestError", Some("P2025"), "Record to update or delete does not exist", "")

  predicate Distinct(s: seq<Id>)
  {
    forall i, j | 0 <= i < j < |s| :: s[i] != s[j]
  }

  /** Every product is stored under its own id and satisfies the data-model invariant. */
  predicate AllValid(rows: map<Id, Product>)
  {
    forall id | id in rows :: ProductValid(rows[id])
  }

  /** `s` without `x`. */
  function Without(s: seq<Id>, x: Id): seq<Id>
  {
    if s == [] then [] else (if s[0] == x then [] else [s[0]]) + Without(s[1..], x)
  }

  /** Removing an id keeps every other id, drops that one, and keeps the sequence free of duplicates. */
  lemma {:induction false} WithoutSpec(s: seq<Id>, x: Id)
    ensures forall y :: y in Without(s, x) <==> y in s && y != x
    ensures Distinct(s) ==> Distinct(Without(s, x))
  {
    if s != [] {
      WithoutSpec(s[1..], x);
      var rest := Without(s[1..], x);
      if Distinct(s) {
        DistinctTail(s);
        if s[0] != x {
          assert s[0] !in rest;
          var r := [s[0]] + rest;
          forall i, j | 0 <= i < j < |r| ensures r[i] != r[j] {
            if i == 0 {
              assert r[j] == rest[j - 1];
              assert r[j] in rest;
            } else {
              assert r[i] == rest[i - 1] && r[j] == rest[j - 1];
            }
          }
        }
      }
    }
  }

  /** The tail of a sequence without duplicates has none either, and does not hold its head. */
  lemma DistinctTail(s: seq<Id>)
    requires Distinct(s) && s != []
    ensures Distinct(s[1..]) && s[0] !in s[1..]
  {
  }

  /**
   * Removing an id keeps the remaining ids in their order: an absent id
   * changes nothing, and in a sequence without duplicates exactly the one
   * position holding the id is cut out.
   */
  lemma {:induction false} WithoutKeepsOrder(s: seq<Id>, x: Id, k: nat)
    ensures x !in s ==> Without(s, x) == s
    ensures Distinct(s) && k < |s| && s[k] == x ==> Without(s, x) == s[..k] + s[k + 1..]
  {
    if s != [] {
      WithoutKeepsOrder(s[1..], x, if k == 0 then 0 else k - 1);
      if x !in s {
        assert x !in s[1..];
        assert s == [s[0]] + s[1..];
      }
      if Distinct(s) && k < |s| && s[k] == x {
        DistinctTail(s);
        if k == 0 {
          assert s[..0] + s[1..] == s[1..];
        } else {
          assert s[1..][k - 1] == x;
          assert s[..k] == [s[0]] + s[1..][..k - 1];
          assert s[k + 1..] == s[1..][k..];
        }
      }
    }
  }

  /** The rows `ids` name, newest (last created) first: one entry per id. */
  function Listing(rows: map<Id, Product>, ids: seq<Id>): (r: seq<Product>)
    requires forall i | 0 <= i < |ids| :: ids[i] in rows
    ensures |r| == |ids|
    ensures forall k | 0 <= k < |r| :: r[k] in rows.Values
    decreases |ids|
  {
    if ids == [] then [] else [rows[ids[|ids| - 1]]] + Listing(rows, ids[..|ids| - 1])
  }

  /** Position k of the listing holds the k-th most recently created row. */
  lemma {:induction false} ListingAt(rows: map<Id, Product>, ids: seq<Id>, k: nat)
    requires forall i | 0 <= i < |ids| :: ids[i] in rows
    requires k < |ids|
    ensures |Listing(rows, ids)| == |ids|
    ensures Listing(rows, ids)[k] == rows[ids[|ids| - 1 - k]]
  {
    if k > 0 {
      var front := ids[..|ids| - 1];
      assert forall i | 0 <= i < |front| :: front[i] == ids[i];
      ListingAt(rows, front, k - 1);
    }
  }

  /** A sequence without duplicates has as many distinct elements as positions. */
  lemma {:induction false} DistinctCardinality(s: seq<Id>)
    requires Distinct(s)
    ensures |set i | 0 <= i < |s| :: s[i]| == |s|
  {
    if s != [] {
      var tail := s[1..];
      DistinctTail(s);
      DistinctCardinality(tail);
      var all := set i | 0 <= i < |s| :: s[i];
      var rest := set i | 0 <= i < |tail| :: tail[i];
      assert all == {s[0]} + rest by {
        forall y | y in all ensures y in {s[0]} + rest {
          var i :| 0 <= i < |s| && s[i] == y;
          if i > 0 { assert tail[i - 1] == y; }
        }
      }
      assert s[0] !in rest;
    }
  }

  /** The store's representation invariant, on plain values. */
  predicate StoreInvariant(rows: map<Id, Product>, created: seq<Id>)
  {
    && Distinct(created)
    && (forall i | 0 <= i < |created| :: created[i] in rows)
    && (forall id | id in rows :: id in created)
    && (forall id | id in rows :: rows[id].id == id)
  }

  /** Removing a row and its id from the creation order keeps the invariant. */
  lemma DeleteKeepsInvariant(rows: map<Id, Product>, created: seq<Id>, id: Id)
    requires StoreInvariant(rows, created)
    ensures StoreInvariant(rows - {id}, Without(created, id))
  {
    WithoutSpec(created, id);
    var after := Without(created, id);
    assert forall i | 0 <= i < |after| :: after[i] in after;
  }

  /**
   * The listing of a store enumerates it: one entry per row, every stored
   * product present, no product twice, newest first.
   */
  lemma ListingEnumeratesStore(rows: map<Id, Product>, created: seq<Id>)
    requires StoreInvariant(rows, created)
    ensures |Listing(rows, created)| == |created| == |rows|
    ensures forall id | id in rows :: rows[id] in Listing(rows, created)
    ensures forall k1, k2 | 0 <= k1 < k2 < |Listing(rows, created)| ::
      Listing(rows, created)[k1].id != Listing(rows, created)[k2].id
    ensures forall k | 0 <= k < |created| :: Listing(rows, created)[k] == rows[created[|created| - 1 - k]]
  {
    var l := Listing(rows, created);
    var n := |created|;
    forall k | 0 <= k < n ensures l[k] == rows[created[n - 1 - k]] {
      ListingAt(rows, created, k);
    }
    DistinctCardinality(created);
    assert rows.Keys == set i | 0 <= i < n :: created[i];
    forall id | id in rows ensures rows[id] in l {
      var i :| 0 <= i < n && created[i] == id;
      assert l[n - 1 - i] == rows[id];
    }
    forall k1, k2 | 0 <= k1 < k2 < n ensures l[k1].id != l[k2].id {
      assert l[k1].id == created[n - 1 - k1];
      assert l[k2].id == created[n - 1 - k2];
    }
  }

  /** The `nome` and `valor` that create forwards to the store, when both have the column types. */
  function CreateFields(data: Json): Option<(string, real)>
  {
    match (Get(data, "nome"), Get(data, "valor"))
    case (Some(JStr(nome)), Some(JNum(valor))) => Some((nome, valor))
    case _ => None
  }

  /** An update argument the client takes: an object whose keys are product columns with the column types. */
  predicate UpdatableData(data: Json)
  {
    && data.JObj?
    && (forall key | key in data.fields :: key == "nome" || key == "valor")
    && ("nome" in data.fields ==> data.fields["nome"].JStr?)
    && ("valor" in data.fields ==> data.fields["valor"].JNum?)
  }

  /** A product as the JSON object the store hands back. */
  function Fields(p: Product): map<string, Json>
  {
    map["id" := JStr(p.id), "nome" := JStr(p.nome), "valor" := JNum(p.valor)]
  }

  /**
   * Partial update: the stored object spread with the supplied fields
   * (`{ ...stored, ...data }`); the id, which the data never carries, stays.
   */
  function Merge(p: Product, data: Json): (r: Product)
    requires UpdatableData(data)
    ensures Fields(r) == Fields(p) + data.fields
    ensures r.id == p.id
  {
    Product(
      p.id,
      if "nome" in data.fields then data.fields["nome"].str else p.nome,
      if "valor" in data.fields then data.fields["valor"].num else p.valor)
  }

  /** Updating with the same data twice is the same as once, and an empty update changes nothing. */
  lemma MergeIdempotent(p: Product, data: Json)
    requires UpdatableData(data)
    ensures Merge(Merge(p, data), data) == Merge(p, data)
    ensures data.fields == map[] ==> Merge(p, data) == p
  {
  }

  /** What a create call returns: a client refusal, the environment's failure, a clash with an existing id, or the new row. */
  function CreateResult(rows: map<Id, Product>, faults: map<StoreOp, Error>, data: Json, newId: Id): (r: Result<Product, Error>)
    ensures r.Ok? <==> CreateFields(data).Some? && OpCreate !in faults && newId !in rows
    ensures r.Ok? ==> r.value.id == newId && (r.value.nome, r.value.valor) == CreateFields(data).value
    ensures r.Err? && CreateFields(data).None? ==> r.error == ClientValidationError
    ensures r.Err? && CreateFields(data).Some? && OpCreate in faults ==> r.error == faults[OpCreate]
    ensures r.Err? && CreateFields(data).Some? && OpCreate !in faults ==> r.error == UniqueConstraintError
  {
    match CreateFields(data)
    case None => Err(ClientValidationError)
    case Some((nome, valor)) =>
      if OpCreate in faults then Err(faults[OpCreate])
      else if newId in rows then Err(UniqueConstraintError)
      else Ok(Product(newId, nome, valor))
  }

  /** What an update call returns. */
  function UpdateResult(rows: map<Id, Product>, faults: map<StoreOp, Error>, id: Id, data: Json): (r: Result<Product, Error>)
    ensures r.Ok? <==> UpdatableData(data) && OpUpdate !in faults && id in rows
    ensures r.Ok? ==> Fields(r.value) == Fields(rows[id]) + data.fields
    ensures r.Err? && !UpdatableData(data) ==> r.error == ClientValidationError
    ensures r.Err? && UpdatableData(data) && OpUpdate in faults ==> r.error == faults[OpUpdate]
    ensures r.Err? && UpdatableData(data) && OpUpdate !in faults ==> r.error == RecordNotFoundError
  {
    if !UpdatableData(data) then Err(ClientValidationError)
    else if OpUpdate in faults then Err(faults[OpUpdate])
    else if id !in rows then Err(RecordNotFoundError)
    else Ok(Merge(rows[id], data))
  }

  /** What a delete call returns: the deleted row. */
  function DeleteResult(rows: map<Id, Product>, faults: map<StoreOp, Error>, id: Id): (r: Result<Product, Error>)
    ensures r.Ok? <==> OpDelete !in faults && id in rows
    ensures r.Ok? ==> r.value == rows[id]
    ensures r.Err? ==> r.error == if OpDelete in faults then faults[OpDelete] else RecordNotFoundError
  {
    if OpDelete in faults then Err(faults[OpDelete])
    else if id !in rows then Err(RecordNotFoundError)
    else Ok(rows[id])
  }

  /** A created row gets the fresh id and exactly the forwarded `nome` and `valor`; extra keys of the body are dropped. */
  lemma CreateStoresForwardedFields(rows: map<Id, Product>, faults: map<StoreOp, Error>, data: Json, newId: Id, key: string, v: Json)
    requires CreateResult(rows, faults, data, newId).Ok?
    requires data.JObj? && key != "nome" && key != "valor"
    ensures newId !in rows
    ensures CreateResult(rows, faults, data, newId).value ==
      Product(newId, data.fields["nome"].str, data.fields["valor"].num)
    ensures CreateResult(rows, faults, JObj(data.fields[key := v]), newId) == CreateResult(rows, faults, data, newId)
  {
    assert Get(JObj(data.fields[key := v]), "nome") == Get(data, "nome");
    assert Get(JObj(data.fields[key := v]), "valor") == Get(data, "valor");
  }

  /**
   * `ProductService`: the store behind the controller. `faults` says, for each
   * kind of call, the error that call fails with, if any; a failing call
   * changes nothing.
   */
  class ProductService {
    var rows: map<Id, Product>
    /** Ids in creation order, oldest first. */
    var created: seq<Id>
    const faults: map<StoreOp, Error>

    ghost predicate Valid()
      reads this
    {
      StoreInvariant(rows, created)
    }

    constructor (faults: map<StoreOp, Error>)
      ensures Valid() && rows == map[] && created == [] && this.faults == faults
    {
      rows := map[];
      created := [];
      this.faults := faults;
    }

    /** `findMany` ordered by `created_at` descending. */
    method GetAllProducts() returns (r: Result<seq<Product>, Error>)
      requires Valid()
      ensures OpGetAll in faults ==> r == Err(faults[OpGetAll])
      ensures OpGetAll !in faults ==> r == Ok(Listing(rows, created))
    {
      if OpGetAll in faults {
        r := Err(faults[OpGetAll]);
      } else {
        r := Ok(Listing(rows, created));
      }
    }

    /** `findUnique` by id: an absent row is `None`, not an error. */
    method GetProductById(id: Id) returns (r: Result<Option<Product>, Error>)
      requires Valid()
      ensures OpGetById in faults ==> r == Err(faults[OpGetById])
      ensures OpGetById !in faults ==> r == Ok(if id in rows then Some(rows[id]) else None)
    {
      if OpGetById in faults {
        r := Err(faults[OpGetById]);
      } else if id in rows {
        r := Ok(Some(rows[id]));
      } else {
        r := Ok(None);
      }
    }

    /** `create` with `{nome: data.nome, valor: data.valor}`; `newId` is the id the store generates. */
    method CreateProduct(data: Json, newId: Id) returns (r: Result<Product, Error>)
      requires Valid()
      modifies this
      ensures Valid()
      ensures r == CreateResult(old(rows), faults, data, newId)
      ensures r.Ok? ==> rows == old(rows)[newId := r.value] && created == old(created) + [newId]
      ensures r.Err? ==> rows == old(rows) && created == old(created)
    {
      r := CreateResult(rows, faults, data, newId);
      if r.Ok? {
        var old_created := created;
        rows := rows[newId := r.value];
        created := created + [newId];
        assert forall i | 0 <= i < |old_created| :: created[i] == old_created[i];
        assert created[|created| - 1] == newId;
      }
    }

    /** `update` of the row with this id by the given data. */
    method UpdateProduct(id: Id, data: Json) returns (r: Result<Product, Error>)
      requires Valid()
      modifies this
      ensures Valid()
      ensures r == UpdateResult(old(rows), faults, id, data)
      ensures r.Ok? ==> rows == old(rows)[id := r.value] && created == old(created)
      ensures r.Err? ==> rows == old(rows) && created == old(created)
    {
      r := UpdateResult(rows, faults, id, data);
      if r.Ok? {
        rows := rows[id := r.value];
      }
    }

    /** `delete` of the row with this id. */
    method DeleteProduct(id: Id) returns (r: Result<Product, Error>)
      requires Valid()
      modifies this
      ensures Valid()
      ensures r == DeleteResult(old(rows), faults, id)
      ensures r.Ok? ==> rows == old(rows) - {id} && created == Without(old(created), id)
      ensures r.Err? ==> rows == old(rows) && created == old(created)
    {
      r := DeleteResult(rows, faults, id);
      if r.Ok? {
        DeleteKeepsInvariant(rows, created, id);
        rows := rows - {id};
        created := Without(created, id);
      }
    }
  }
}
