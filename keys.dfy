/** The identities the tables and the event channels carry. */
module Keys {
  import opened Wrappers
  import opened PlyTypes

  /**
   * `Key` as the table code builds it: an optional instance number and the artifact name.
   * Equality is over both fields, as `#[derive(PartialEq, Eq, Hash)]` gives.
   */
  datatype Key = Key(instance: Option<U32>, artifact: string)

  /** `Key` in the revision `playback.rs` uses: a frame number and the artifact name. */
  datatype FrameKey = FrameKey(frame: U32, artifact: string)

  /** `InjectionEvent`: what a table or an injector tells the window thread. */
  datatype InjectionEvent = Add(key: Key) | Remove(key: Key)

  /** A `PathBuf` inside one directory: the directory and the final component. */
  datatype Path = Path(dir: string, name: string)
  {
    /** `path.file_name()`. */
    function FileName(): (s: string)
      ensures s == name
    {
      name
    }

    /** `path.to_str()`: the directory joined with the file name. */
    function FullPath(): (s: string)
      ensures s == dir + "/" + name
      ensures |s| == |dir| + 1 + |name| && s[|dir| + 1..] == name
    {
      dir + "/" + name
    }
  }

  /** The final component of a path string: what follows its last `/`, or all of it when there is none. */
  function LastComponent(s: string): (r: string)
    ensures '/' !in r && |r| <= |s| && s[|s| - |r|..] == r
    ensures |r| < |s| ==> s[|s| - |r| - 1] == '/'
  {
    if s == [] then []
    else if s[|s| - 1] == '/' then []
    else LastComponent(s[..|s| - 1]) + [s[|s| - 1]]
  }

  /** Whatever precedes the last separator, the final component is what follows it. */
  lemma {:induction false} LastComponentAfterSeparator(head: string, name: string)
    requires '/' !in name
    ensures LastComponent(head + "/" + name) == name
    decreases |name|
  {
    var s := head + "/" + name;
    if name == [] {
      assert s[|s| - 1] == '/';
    } else {
      var init := name[..|name| - 1];
      var last := name[|name| - 1];
      assert last in name;
      assert '/' !in init by {
        forall i | 0 <= i < |init| ensures init[i] != '/' {
          assert init[i] == name[i];
        }
      }
      assert s[..|s| - 1] == head + "/" + init;
      assert s[|s| - 1] == last;
      LastComponentAfterSeparator(head, init);
      assert init + [last] == name;
    }
  }

  /**
   * `file_name()` and `to_str()` agree: for a name without a separator, the final component
   * of the full path is the file name.
   */
  lemma FileNameOfFullPath(p: Path)
    requires '/' !in p.name
    ensures LastComponent(p.FullPath()) == p.FileName()
  {
    LastComponentAfterSeparator(p.dir, p.name);
  }
}
