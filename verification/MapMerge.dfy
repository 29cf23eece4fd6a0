/** The key sets of the two maps of a merge loop that visits the keys of `existing` in any order: keys
    without an update are deleted from `existing`, and keys whose update was used from `updated`. */
module MapMerge {
  /** What is left of `existing` once the `visited` keys were merged. */
  ghost function Kept(existing: set<string>, visited: set<string>, updated: set<string>): set<string> {
    set k | k in existing && (k in visited ==> k in updated)
  }

  /** What is left of `updated` once the `visited` keys were merged and those among them in `used` were used. */
  ghost function Remaining(updated: set<string>, visited: set<string>, used: set<string>): set<string> {
    set k | k in updated && !(k in visited && k in used)
  }

  lemma MergeStep(existing: set<string>, updated: set<string>, visited: set<string>, used: set<string>, k: string)
    requires k in existing && k !in visited
    ensures Remaining(updated, visited + {k}, used)
         == if k in used then Remaining(updated, visited, used) - {k} else Remaining(updated, visited, used)
    ensures Kept(existing, visited + {k}, updated)
         == if k in updated then Kept(existing, visited, updated) else Kept(existing, visited, updated) - {k}
    ensures k in Remaining(updated, visited, used) <==> k in updated
    ensures k in Kept(existing, visited, updated)
  {
  }

  lemma MergeCompletes(existing: set<string>, updated: set<string>, used: set<string>)
    ensures Kept(existing, existing, updated) == existing * updated
    ensures Remaining(updated, existing, used) == updated - (existing * used)
  {
  }
}
