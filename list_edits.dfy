/** The command-line edits of the checklist: `--add URL` tracks a page with
    the placeholder digest "", `--remove URL` stops tracking it. Both run
    without a checking pass. An empty option value means the option was not
    given. */
module ListEdits {
  import opened Pages
  import Checker

  /** The checklist after the edits: the added URL is present with the
      placeholder "" (overwriting any digest it had), the removed URL is
      absent, and every other entry is as it was. The add comes first, so a
      URL both added and removed ends up absent. */
  function Edited(saved: PageMap, add: Url, remove: Url): (m: PageMap)
    ensures m.Keys == (saved.Keys + (if add != "" then {add} else {})) - (if remove != "" then {remove} else {})
    ensures forall k :: k in m ==> m[k] == if add != "" && k == add then "" else saved[k]
  {
    var added := if add != "" then saved[add := ""] else saved;
    if remove != "" && remove in added then added - {remove} else added
  }

  /** Loads the checklist, applies the add and then the remove (a URL that
      is not tracked is silently ignored), and writes the file back. When
      the file cannot be read nothing is written. */
  method EditFile(file: Checker.JsonFile, add: Url, remove: Url) returns (r: Result<()>)
    requires add != "" || remove != ""
    modifies file
    ensures old(file.saved).None? ==>
      r == Err(FileUnreadable) && file.saved == old(file.saved) && file.writes == old(file.writes)
    ensures old(file.saved).Some? ==>
      && r == Ok(())
      && file.saved == Some(Edited(old(file.saved).value, add, remove))
      && file.writes == old(file.writes) + 1
  {
    var loaded := file.Load();
    if loaded.Err? {
      return Err(loaded.error);
    }
    var savedDict := loaded.value;
    if add != "" {
      savedDict := savedDict[add := ""];
    }
    if remove != "" {
      if remove in savedDict {
        savedDict := savedDict - {remove};
      }
    }
    file.Dump(savedDict);
    r := Ok(());
  }

  /** Removing a URL that is not tracked changes nothing. */
  lemma RemoveUntrackedIsNoOp(saved: PageMap, remove: Url)
    requires remove !in saved
    ensures Edited(saved, "", remove) == saved
  {
    assert Edited(saved, "", remove).Keys == saved.Keys;
  }

  /** Removing undoes adding a URL that was not tracked before. */
  lemma RemoveUndoesAdd(saved: PageMap, url: Url)
    requires url != "" && url !in saved
    ensures Edited(Edited(saved, url, ""), "", url) == saved
  {
    assert Edited(Edited(saved, url, ""), "", url).Keys == saved.Keys;
  }

  /** A URL just added carries the placeholder digest, which no real digest
      equals, so the next pass reports it with its fresh digest, whatever the
      page contains. */
  lemma AddedPageReportedByNextPass(pc: Checker.PageCheck, web: Web, saved: PageMap, add: Url, remove: Url)
    requires add != "" && add != remove
    requires pc.Reachable(web, Edited(saved, add, remove).Keys)
    ensures var stored := Edited(saved, add, remove);
      && add in pc.Changes(web, stored)
      && pc.GetHash(web, add).Ok? && pc.Changes(web, stored)[add] == pc.GetHash(web, add).value
  {
    var stored := Edited(saved, add, remove);
    assert add in stored && stored[add] == "";
    var current := pc.HashDict(web, stored.Keys);
    assert IsHexDigest(current[add]);
  }
}
