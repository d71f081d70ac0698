/** What the checks of `validate_container_name` in `suggest/model.py` come to, for the tree of folders that
    `views.py` draws. */
module FolderNames {
  import opened Common
  import opened FolderTree
  import Review
  import Search

  /** The name has the separator at neither end, nor twice in a row; `word` is what came before it. */
  predicate Tight(name: string, c: char, word: string) {
    && (name == "" ==> word != "")
    && (name != "" ==> (word == "" ==> name[0] != c) && Last(name) != c)
    && forall i :: 0 <= i < |name| - 1 ==> !(name[i] == c && name[i + 1] == c)
  }

  predicate NoneEmpty(path: Path) { forall k :: 0 <= k < |path| ==> path[k] != "" }

  lemma NoneEmptyMore(word: string, rest: Path)
    ensures NoneEmpty([word] + rest) <==> word != "" && NoneEmpty(rest)
  {
    var all := [word] + rest;
    assert all[0] == word && forall k :: 0 <= k < |rest| ==> all[k + 1] == rest[k];
  }

  lemma {:induction false} TightLevels(name: string, c: char, word: string)
    ensures Tight(name, c, word) <==> NoneEmpty(SplitOn(name, c, word))
    decreases |name|
  {
    if name == "" {
      assert SplitOn(name, c, word) == [word] && [word][0] == word;
    } else {
      if name[0] == c {
        TightLevels(name[1..], c, "");
        var rest := SplitOn(name[1..], c, "");
        assert name[1..] == "" ==> rest == [""] && rest[0] == "";
        NoneEmptyMore(word, rest);
      } else {
        TightLevels(name[1..], c, word + [name[0]]);
      }
    }
  }

  /** A name is let through exactly if it is trimmed, short enough, printable, not INBOX, and no level of the
      hierarchy it names is empty. */
  lemma ValidNamesHaveNoEmptyLevel(name: string, delimiter: Option<char>)
    ensures Review.ValidName(name, delimiter) <==>
              && 1 <= |name| <= 255 && !Search.IsSpace(name[0]) && !Search.IsSpace(name[|name| - 1])
              && (forall c <- name :: ' ' <= c && c != '\U{7f}') && !IsInbox(name)
              && NoneEmpty(Levels(name, delimiter))
  {
    if delimiter.Some? {
      TightLevels(name, delimiter.value, "");
      if name != "" {
        assert Tight(name, delimiter.value, "") ==
               (name[0] != delimiter.value && Last(name) != delimiter.value
                && forall i :: 0 <= i < |name| - 1 ==> !(name[i] == delimiter.value && name[i + 1] == delimiter.value));
      }
    } else {
      assert Levels(name, delimiter) == [name];
    }
  }
}
