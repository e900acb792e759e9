/**
  The repository factory of internal/database/repositories/factory.go. The package-level
  variables `userRepositoryInstance` and `userRepositoryOnce` live in one `PackageState`
  object; `Factory` itself has no fields, so every Factory works on that same state.
  Only the sequential meaning of `sync.Once` is modelled: a flag saying whether `Do` has
  already run its function.
*/
module RepositoryFactory {
  import opened Repositories

  class PackageState {
    const database: Database           // `database.DB`, what NewUserRepository captures
    var instance: UserRepository?      // `userRepositoryInstance` (nil interface: null)
    var onceDone: bool                 // whether `userRepositoryOnce.Do` has fired

    /** Once the once has fired, an instance is stored. */
    ghost predicate Valid()
      reads this
    {
      onceDone ==> instance != null
    }

    /** The zero values Go gives the two package variables. */
    constructor (database: Database)
      ensures Valid() && this.database == database && instance == null && !onceDone
    {
      this.database := database;
      instance := null;
      onceDone := false;
    }
  }

  class Factory {

    /** `NewFactory`: an empty struct. */
    constructor ()
    {
    }

    /**
      `GetUserRepository`: the first call after the once was (re)set builds a fresh
      repository on the shared database and stores it; every later call returns the
      stored instance without building another.
    */
    method GetUserRepository(pkg: PackageState) returns (repo: UserRepository)
      requires pkg.Valid()
      modifies pkg
      ensures pkg.Valid() && pkg.onceDone && pkg.instance == repo
      ensures old(pkg.onceDone) ==> repo == old(pkg.instance)
      ensures !old(pkg.onceDone) ==> fresh(repo) && repo.db == pkg.database
    {
      if !pkg.onceDone {
        pkg.instance := new UserRepository(pkg.database);
        pkg.onceDone := true;
      }
      repo := pkg.instance;
    }

    /**
      `SetUserRepository` as written: stores `repo` and replaces the once by a fresh
      `sync.Once{}`, so the next `GetUserRepository` runs the initializer again.
    */
    method SetUserRepository(pkg: PackageState, repo: UserRepository?)
      modifies pkg
      ensures pkg.Valid() && pkg.instance == repo && !pkg.onceDone
    {
      pkg.instance := repo;
      pkg.onceDone := false;
    }

    /**
      What the comment on `SetUserRepository` promises ("so GetUserRepository will use the
      new instance"): store `repo` and leave the once in its fired state.
    */
    method InjectUserRepository(pkg: PackageState, repo: UserRepository)
      modifies pkg
      ensures pkg.Valid() && pkg.instance == repo && pkg.onceDone
    {
      pkg.instance := repo;
      pkg.onceDone := true;
    }
  }

  /**
    A mock injected with `SetUserRepository` is not what the next `GetUserRepository`
    returns: it gets a freshly built repository on the real database instead.
  */
  method SetThenGetDiscardsInjected(f: Factory, pkg: PackageState, mock: UserRepository)
    returns (got: UserRepository)
    modifies pkg
    ensures got != mock && fresh(got) && got.db == pkg.database && pkg.instance == got
  {
    f.SetUserRepository(pkg, mock);
    got := f.GetUserRepository(pkg);
  }

  /** With the corrected injection the next `GetUserRepository` returns the injected repository. */
  method InjectThenGetReturnsInjected(f: Factory, pkg: PackageState, mock: UserRepository)
    returns (got: UserRepository)
    modifies pkg
    ensures got == mock && pkg.instance == mock
  {
    f.InjectUserRepository(pkg, mock);
    got := f.GetUserRepository(pkg);
  }

  /** Two Factory values share one instance: what one builds, the other returns. */
  method FactoriesShareInstance(f1: Factory, f2: Factory, pkg: PackageState)
    returns (r1: UserRepository, r2: UserRepository)
    requires pkg.Valid()
    modifies pkg
    ensures r1 == r2 && pkg.instance == r1
    ensures old(pkg.onceDone) ==> r1 == old(pkg.instance)
  {
    r1 := f1.GetUserRepository(pkg);
    r2 := f2.GetUserRepository(pkg);
  }
}
