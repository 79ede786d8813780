/** Loops over the elements of a set, in any order. */
module Sets {

  // `done` is behind the loop and `rest` ahead of it
  ghost predicate Split<T(!new)>(all: set<T>, done: set<T>, rest: set<T>) {
    done !! rest && done + rest == all
  }

  lemma SplitMore<T(!new)>(all: set<T>, done: set<T>, rest: set<T>, x: T)
    requires Split(all, done, rest) && x in rest
    ensures Split(all, done + {x}, rest - {x}) && x !in done
  {
  }
}
