/**
 * `check_path` (run_red.py:186-192): make sure the user's `~/.local/bin`
 * is one of the `:`-separated components of `PATH`, appending it when absent.
 */
module SearchPath {
  import opened Base
  import opened Text

  /** `os.path.join(home, '.local/bin')` for the expanded `~`. */
  function UserBin(home: string): (dir: string)
  {
    if home == "" || home[|home| - 1] == '/' then home + ".local/bin" else home + "/.local/bin"
  }

  /** The new value of `PATH`: unchanged when the directory is a component already, else with it appended. */
  function Augmented(path: string, home: string): (r: string)
  {
    var parts := Split(path, ':');
    if UserBin(home) in parts then path else Join(parts + [UserBin(home)], ':')
  }

  /**
   * `check_path()` on the environment `env` with home directory `home`.
   * None stands for the `KeyError` raised when `PATH` is not set.
   */
  method CheckPath(env: map<string, string>, home: string) returns (r: Option<map<string, string>>)
    ensures "PATH" !in env <==> r.None?
    ensures r.Some? ==> r.value == env["PATH" := Augmented(env["PATH"], home)]
    ensures r.Some? && UserBin(home) in Split(env["PATH"], ':') ==> r.value == env
  {
    if "PATH" !in env {
      return None;
    }
    var userbin := UserBin(home);
    var current := Split(env["PATH"], ':');
    if userbin !in current {
      current := current + [userbin];
      return Some(env["PATH" := Join(current, ':')]);
    }
    return Some(env);
  }

  /** The appended directory holds no separator when the home directory holds none. */
  lemma UserBinIsFree(home: string)
    requires ':' !in home
    ensures Free(UserBin(home), ':')
  {
  }

  /** Joining one more part adds a separator and the part at the end of the text. */
  lemma {:induction false} JoinAppend(parts: seq<string>, sep: char, x: string)
    requires |parts| >= 1
    ensures Join(parts + [x], sep) == Join(parts, sep) + [sep] + x
    decreases |parts|
  {
    if |parts| > 1 {
      assert (parts + [x])[1..] == parts[1..] + [x];
      JoinAppend(parts[1..], sep, x);
    } else {
      assert (parts + [x])[1..] == [x];
    }
  }

  /**
   * When absent, the directory is appended as the last component, the
   * existing components keep their order, and the text only grows by
   * `:` and the directory.
   */
  lemma AppendsWhenAbsent(path: string, home: string)
    requires ':' !in home
    requires UserBin(home) !in Split(path, ':')
    ensures Augmented(path, home) == path + ":" + UserBin(home)
    ensures Split(Augmented(path, home), ':') == Split(path, ':') + [UserBin(home)]
  {
    var parts := Split(path, ':');
    JoinAppend(parts, ':', UserBin(home));
    UserBinIsFree(home);
    SplitJoin(parts + [UserBin(home)], ':');
  }

  /** After the update the directory is a component of `PATH`. */
  lemma ContainsUserBin(path: string, home: string)
    requires ':' !in home
    ensures UserBin(home) in Split(Augmented(path, home), ':')
  {
    if UserBin(home) !in Split(path, ':') {
      AppendsWhenAbsent(path, home);
    }
  }

  /** Running the update twice gives the same `PATH` as running it once. */
  lemma Idempotent(path: string, home: string)
    requires ':' !in home
    ensures Augmented(Augmented(path, home), home) == Augmented(path, home)
  {
    ContainsUserBin(path, home);
  }

  /**
   * A home directory containing `:` makes the directory span two `PATH`
   * components, so it is never found and every run appends it again.
   */
  lemma ColonHomeAppendsEveryRun(path: string, home: string)
    requires ':' in home
    ensures Augmented(path, home) == path + ":" + UserBin(home)
    ensures Augmented(Augmented(path, home), home) != Augmented(path, home)
  {
    var dir := UserBin(home);
    var k :| 0 <= k < |home| && home[k] == ':';
    assert dir[k] == ':';
    NeverAComponent(path, dir);
    JoinAppend(Split(path, ':'), ':', dir);
    var once := path + ":" + dir;
    NeverAComponent(once, dir);
    JoinAppend(Split(once, ':'), ':', dir);
    assert |Augmented(once, home)| > |once|;
  }

  /** A text containing `:` is never one of the components of a `:`-split. */
  lemma NeverAComponent(path: string, dir: string)
    requires ':' in dir
    ensures dir !in Split(path, ':')
  {
    var parts := Split(path, ':');
    var m :| 0 <= m < |dir| && dir[m] == ':';
    forall j | 0 <= j < |parts|
      ensures parts[j] != dir
    {
      assert m >= |parts[j]| || parts[j][m] != dir[m];
    }
  }
}
