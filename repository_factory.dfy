/**
 * Backend selection (src/infrastructure/factories/RepositoryFactory.js).
 *
 * The `REPOSITORY_TYPE` environment variable is an explicit argument (`None` when unset).
 * Establishing the MySQL pool is I/O outside this model: its outcome is the argument
 * `pool`, which the selection consults only on the MySQL branch.
 */
module RepositoryFactory {
  import opened Wrappers

  /** The repository the factory returns. */
  datatype Backend<Pool> = InMemory | MySql(pool: Pool)

  /** `String.prototype.toLowerCase` on one character, for the ASCII letters. */
  function LowerChar(c: char): (r: char)
    ensures 'A' <= c <= 'Z' ==> r == (c as int + 32) as char && 'a' <= r <= 'z'
    ensures !('A' <= c <= 'Z') ==> r == c
  {
    if 'A' <= c <= 'Z' then (c as int + 32) as char else c
  }

  /** `String.prototype.toLowerCase`. */
  function ToLower(s: string): (r: string)
    ensures |r| == |s|
    ensures forall i :: 0 <= i < |s| ==> r[i] == LowerChar(s[i])
  {
    if s == [] then [] else [LowerChar(s[0])] + ToLower(s[1..])
  }

  /** `process.env.REPOSITORY_TYPE || 'memory'`: an unset or empty value is `"memory"`. */
  function ConfiguredType(env: Option<string>): (t: string)
    ensures t != ""
    ensures env.None? || env.value == "" ==> t == "memory"
    ensures env.Some? && env.value != "" ==> t == env.value
  {
    if env.Some? && env.value != "" then env.value else "memory"
  }

  /** `createProductRepository()`: `"mysql"` in any casing creates the pool and a MySQL
      store, a pool failure propagating; `"memory"` and every other value give the
      in-memory store. */
  function CreateProductRepository<Pool, E>(env: Option<string>, pool: Result<Pool, E>): (r: Result<Backend<Pool>, E>)
    ensures r != Success(InMemory) <==> env.Some? && ToLower(env.value) == "mysql"
    ensures env.Some? && ToLower(env.value) == "mysql" && pool.Success? ==> r == Success(MySql(pool.value))
    ensures env.Some? && ToLower(env.value) == "mysql" && pool.Failure? ==> r == Failure(pool.error)
  {
    assert ToLower("memory") == "memory";
    var kind := ToLower(ConfiguredType(env));
    if kind == "mysql" then
      match pool
      case Success(p) => Success(MySql(p))
      case Failure(e) => Failure(e)
    else
      Success(InMemory)
  }

  /** Lower-casing twice is lower-casing once. */
  lemma {:induction false} ToLowerIdempotent(s: string)
    ensures ToLower(ToLower(s)) == ToLower(s)
  {
    if s != [] {
      ToLowerIdempotent(s[1..]);
      assert ToLower(s) == [LowerChar(s[0])] + ToLower(s[1..]);
    }
  }

  /** Unset or empty configuration selects the in-memory store, whatever the pool. */
  lemma UnsetSelectsMemory<Pool, E>(env: Option<string>, pool: Result<Pool, E>)
    requires env.None? || env.value == ""
    ensures CreateProductRepository(env, pool) == Success(InMemory)
  {
  }

  /** Matching ignores case: a value and its lower-case form select the same backend. */
  lemma SelectionIgnoresCase<Pool, E>(s: string, pool: Result<Pool, E>)
    ensures CreateProductRepository(Some(s), pool) == CreateProductRepository(Some(ToLower(s)), pool)
  {
    ToLowerIdempotent(s);
  }

  /** `"MySQL"`, `"MYSQL"` and `"Memory"` as examples of case-insensitive matching. */
  lemma CasingExamples<Pool, E>(p: Pool)
    ensures CreateProductRepository<Pool, E>(Some("MySQL"), Success(p)) == Success(MySql(p))
    ensures CreateProductRepository<Pool, E>(Some("MYSQL"), Success(p)) == Success(MySql(p))
    ensures CreateProductRepository<Pool, E>(Some("Memory"), Success(p)) == Success(InMemory)
    ensures CreateProductRepository<Pool, E>(Some("postgres"), Success(p)) == Success(InMemory)
  {
    MySqlLowercased();
  }

  /** Two spellings of the MySQL setting, lower-cased. */
  lemma MySqlLowercased()
    ensures ToLower("MySQL") == "mysql" && ToLower("MYSQL") == "mysql"
  {
  }
}
