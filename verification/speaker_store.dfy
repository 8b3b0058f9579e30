/** The speaker database: a dictionary from speaker name to reference
    embedding, pickled to one file. A Python dictionary iterates in insertion
    order and overwriting a key keeps its position, so the model keeps the
    key order next to the map. The file is an optional database: None when
    it does not exist, and a saved database reads back as itself. */
module SpeakerStore {
  import opened Wrappers

  datatype Db<E> = Db(order: seq<string>, embeddings: map<string, E>)

  /** Every key appears exactly once in the iteration order. */
  ghost predicate Valid<E>(db: Db<E>) {
    && (forall i, j :: 0 <= i < j < |db.order| ==> db.order[i] != db.order[j])
    && (forall n :: n in db.embeddings <==> n in db.order)
  }

  /** Dictionary assignment: a new key goes to the end of the iteration
      order, an existing key keeps its place and gets the new value. */
  function Put<E>(db: Db<E>, name: string, e: E): (r: Db<E>)
    requires Valid(db)
    ensures Valid(r)
    ensures name in r.embeddings && r.embeddings[name] == e
    ensures forall n :: n != name ==> (n in r.embeddings <==> n in db.embeddings)
    ensures forall n :: n != name && n in db.embeddings ==> r.embeddings[n] == db.embeddings[n]
    ensures name in db.embeddings ==> r.order == db.order
    ensures name !in db.embeddings ==> r.order == db.order + [name]
  {
    Db(if name in db.embeddings then db.order else db.order + [name], db.embeddings[name := e])
  }

  /** The contents of the pickle file; None when the file does not exist. */
  type File<E> = Option<Db<E>>

  ghost predicate ValidFile<E>(file: File<E>) {
    file.Some? ==> Valid(file.value)
  }

  function Empty<E>(): Db<E> {
    Db([], map[])
  }

  /** `load()`: the stored database, or an empty one without a file. */
  function Load<E>(file: File<E>): (db: Db<E>)
    ensures file.None? ==> db.order == [] && db.embeddings == map[]
    ensures ValidFile(file) ==> Valid(db)
  {
    if file.Some? then file.value else Empty()
  }

  /** `save(db)`: the file now holds `db`. */
  function Save<E>(db: Db<E>): (file: File<E>)
    ensures Load(file) == db
  {
    Some(db)
  }

  /** `add(name, embedding)`: load, overwrite one entry, save. */
  function Add<E>(file: File<E>, name: string, e: E): (file': File<E>)
    requires ValidFile(file)
    ensures ValidFile(file')
  {
    Save(Put(Load(file), name, e))
  }

  /** `get_all()`: the stored database. Reading returns no new file, so it
      cannot change what is stored. */
  function GetAll<E>(file: File<E>): Db<E> {
    Load(file)
  }

  // ---------------------------------------------------------------------
  // Properties
  // ---------------------------------------------------------------------

  /** The iteration order lists every key once, so it is as long as the
      database has entries. */
  lemma {:induction false} OrderLength<E>(db: Db<E>)
    requires Valid(db)
    ensures |db.order| == |db.embeddings|
  {
    DistinctCard(db.order);
    assert db.embeddings.Keys == set n | n in db.order;
  }

  lemma {:induction false} DistinctCard(s: seq<string>)
    requires forall i, j :: 0 <= i < j < |s| ==> s[i] != s[j]
    ensures |set n | n in s| == |s|
  {
    if s != [] {
      var t := s[..|s| - 1];
      DistinctCard(t);
      assert (set n | n in s) == (set n | n in t) + {s[|s| - 1]};
      assert s[|s| - 1] !in t;
    }
  }

  /** Reading after `add(name, e)` finds `e` under `name`. */
  lemma AddThenGetAll<E>(file: File<E>, name: string, e: E)
    requires ValidFile(file)
    ensures name in GetAll(Add(file, name, e)).embeddings
    ensures GetAll(Add(file, name, e)).embeddings[name] == e
  {
  }

  /** `add` leaves every other speaker's entry as it was. */
  lemma AddKeepsOthers<E>(file: File<E>, name: string, e: E, other: string)
    requires ValidFile(file)
    requires other != name
    ensures other in GetAll(Add(file, name, e)).embeddings <==> other in GetAll(file).embeddings
    ensures other in GetAll(file).embeddings ==>
              GetAll(Add(file, name, e)).embeddings[other] == GetAll(file).embeddings[other]
  {
  }

  /** Re-adding a known speaker keeps the size; a new speaker adds one entry,
      iterated after all earlier ones. */
  lemma AddSize<E>(file: File<E>, name: string, e: E)
    requires ValidFile(file)
    ensures name in GetAll(file).embeddings ==>
              |GetAll(Add(file, name, e)).embeddings| == |GetAll(file).embeddings|
    ensures name !in GetAll(file).embeddings ==>
              |GetAll(Add(file, name, e)).embeddings| == |GetAll(file).embeddings| + 1
  {
    var before := GetAll(file).embeddings;
    var after := GetAll(Add(file, name, e)).embeddings;
    if name in before {
      assert after.Keys == before.Keys;
    } else {
      assert after.Keys == before.Keys + {name};
    }
  }

  /** Re-adding a known speaker leaves the iteration order as it was. */
  lemma AddKeepsOrder<E>(file: File<E>, name: string, e: E)
    requires ValidFile(file)
    ensures name in GetAll(file).embeddings ==> GetAll(Add(file, name, e)).order == GetAll(file).order
    ensures name !in GetAll(file).embeddings ==>
              GetAll(Add(file, name, e)).order == GetAll(file).order + [name]
  {
  }
}
