/** The two command handlers, `copyWindowsPath` and `copyWindowsRelativePath`.
    The host is not called: what a handler would do is returned as an Outcome.
    `uri` is the `fsPath` of the file the command was invoked on, if any;
    `editor` is the `fsPath` of the active editor's document, if any. */
module Commands {
  import opened Wrappers
  import opened WindowsPath
  import opened RelativePath

  const NoFileSelected := "No file selected"
  const NotInWorkspace := "File is not in workspace"
  const CopiedPrefix := "Copied: "

  /** A warning shown to the user with nothing copied, or a clipboard write of
      `text` followed by the status-bar message `status`. */
  datatype Outcome = Warn(message: string) | Copy(text: string, status: string)

  /** The successful outcome for the copied text `t`. */
  function Copied(t: string): Outcome
  {
    Copy(t, CopiedPrefix + t)
  }

  /** The `let filePath` of both handlers: the uri's path when a uri is given,
      otherwise the active editor's path, if there is an editor. */
  function SelectedFile(uri: Option<string>, editor: Option<string>): Option<string>
  {
    if uri.Some? then uri else editor
  }

  /** `copyWindowsPath`. */
  function CopyWindowsPath(uri: Option<string>, editor: Option<string>): (o: Outcome)
    ensures uri.Some? && uri.value != "" ==> o == Copied(ToWindowsPath(uri.value))
    ensures uri.None? && editor.Some? && editor.value != "" ==> o == Copied(ToWindowsPath(editor.value))
    ensures (uri.Some? && uri.value == "") || (uri.None? && (editor.None? || editor.value == ""))
            ==> o == Warn(NoFileSelected)
    ensures o.Copy? ==> '/' !in o.text && o.status == CopiedPrefix + o.text
  {
    var filePath := SelectedFile(uri, editor);
    if !Truthy(filePath) then
      Warn(NoFileSelected)
    else
      NoForwardSlash(filePath.value);
      Copied(ToWindowsPath(filePath.value))
  }

  /** `copyWindowsRelativePath`. */
  function CopyWindowsRelativePath(uri: Option<string>, editor: Option<string>, roots: seq<string>,
                                   relative: (string, string) -> string): (o: Outcome)
    ensures !Truthy(SelectedFile(uri, editor)) ==> o == Warn(NoFileSelected)
    ensures Truthy(SelectedFile(uri, editor)) && roots == [] ==> o == Warn(NotInWorkspace)
    ensures o.Copy? ==> Truthy(SelectedFile(uri, editor)) && roots != []
    ensures o.Copy? ==> '/' !in o.text && o.status == CopiedPrefix + o.text
    ensures o.Copy? ==> exists i :: 0 <= i < |roots| && o.text == ToWindowsPath(relative(roots[i], SelectedFile(uri, editor).value))
    ensures Truthy(SelectedFile(uri, editor)) && roots != [] ==>
              var p := SelectedFile(uri, editor).value;
              var rp := relative(SelectBase(roots, p).value, p);
              o == if rp == "" then Warn(NotInWorkspace) else Copied(ToWindowsPath(rp))
  {
    var filePath := SelectedFile(uri, editor);
    if !Truthy(filePath) then
      Warn(NoFileSelected)
    else
      var relativePath := RelativeTo(filePath.value, roots, relative);
      if !Truthy(relativePath) then
        Warn(NotInWorkspace)
      else
        NoForwardSlash(relativePath.value);
        Copied(ToWindowsPath(relativePath.value))
  }

  /** An explicit uri takes priority: the active editor is then irrelevant,
      for both handlers, even when the uri's path is empty. */
  lemma UriTakesPriority(u: string, e1: Option<string>, e2: Option<string>, roots: seq<string>,
                         relative: (string, string) -> string)
    ensures CopyWindowsPath(Some(u), e1) == CopyWindowsPath(Some(u), e2)
    ensures CopyWindowsRelativePath(Some(u), e1, roots, relative)
            == CopyWindowsRelativePath(Some(u), e2, roots, relative)
  {
  }

  /** An empty uri path does not fall back to the editor: it is a warning. */
  lemma EmptyUriWarns(editor: Option<string>, roots: seq<string>, relative: (string, string) -> string)
    ensures CopyWindowsPath(Some(""), editor) == Warn(NoFileSelected)
    ensures CopyWindowsRelativePath(Some(""), editor, roots, relative) == Warn(NoFileSelected)
  {
  }

  /** Both handlers agree on when there is no file: one warns "No file selected"
      exactly when the other does. */
  lemma SameNoFileCondition(uri: Option<string>, editor: Option<string>, roots: seq<string>,
                            relative: (string, string) -> string)
    ensures CopyWindowsPath(uri, editor) == Warn(NoFileSelected)
            <==> CopyWindowsRelativePath(uri, editor, roots, relative) == Warn(NoFileSelected)
  {
    if Truthy(SelectedFile(uri, editor)) {
      var o := CopyWindowsRelativePath(uri, editor, roots, relative);
      assert o.Warn? ==> o.message == NotInWorkspace;
    }
  }

  /** The absolute handler warns only for a missing or empty path, and then
      with "No file selected". */
  lemma AbsoluteWarnsOnlyWithoutFile(uri: Option<string>, editor: Option<string>)
    ensures CopyWindowsPath(uri, editor).Warn? <==> !Truthy(SelectedFile(uri, editor))
    ensures CopyWindowsPath(uri, editor).Warn? ==> CopyWindowsPath(uri, editor).message == NoFileSelected
  {
  }

  /** With a selected file under some root, the relative handler copies the
      Windows form of `relative` from the first root that prefixes the file,
      unless that relative path is empty, and warns otherwise; by either the
      uri or the editor route. */
  lemma RelativeOutcomeFromBase(uri: Option<string>, editor: Option<string>, roots: seq<string>,
                                relative: (string, string) -> string, k: nat)
    requires Truthy(SelectedFile(uri, editor))
    requires k < |roots| && StartsWith(SelectedFile(uri, editor).value, roots[k])
    requires forall j :: 0 <= j < k ==> !StartsWith(SelectedFile(uri, editor).value, roots[j])
    ensures var p := SelectedFile(uri, editor).value;
            var rp := relative(roots[k], p);
            CopyWindowsRelativePath(uri, editor, roots, relative)
            == if rp == "" then Warn(NotInWorkspace) else Copied(ToWindowsPath(rp))
  {
    FirstMatchIsBase(roots, SelectedFile(uri, editor).value, k);
  }

  /** A file that is its own workspace root has an empty relative path, which
      is falsy, so it is reported as not in the workspace. */
  lemma FileEqualToRootWarns(root: string, editor: Option<string>, relative: (string, string) -> string)
    requires root != ""
    requires relative(root, root) == ""
    ensures CopyWindowsRelativePath(Some(root), editor, [root], relative) == Warn(NotInWorkspace)
  {
    FirstMatchIsBase([root], root, 0);
  }

  /** A file equal to a root is not reported as outside the workspace when an
      earlier root prefixes it: that earlier root is the base. */
  lemma EarlierRootWinsOverEqualRoot(relative: (string, string) -> string)
    requires relative("/a", "/a/b") == "b"
    ensures CopyWindowsRelativePath(Some("/a/b"), None, ["/a", "/a/b"], relative) == Copy("b", "Copied: b")
  {
    assert StartsWith("/a/b", "/a");
    RelativeOutcomeFromBase(Some("/a/b"), None, ["/a", "/a/b"], relative, 0);
    IdentityWithoutSlash("b");
  }

  /** A file under no root is still copied, relative to the first root: the
      "File is not in workspace" warning is not given for it. */
  lemma OutsideFileUsesFirstRoot(p: string, roots: seq<string>, relative: (string, string) -> string)
    requires p != "" && roots != []
    requires forall j :: 0 <= j < |roots| ==> !StartsWith(p, roots[j])
    requires relative(roots[0], p) != ""
    ensures CopyWindowsRelativePath(None, Some(p), roots, relative) == Copied(ToWindowsPath(relative(roots[0], p)))
  {
    FallbackToFirstRoot(roots, p);
  }

  /** Whenever the relative handler copies, the absolute handler copies too. */
  lemma RelativeCopyImpliesAbsoluteCopy(uri: Option<string>, editor: Option<string>, roots: seq<string>,
                                        relative: (string, string) -> string)
    requires CopyWindowsRelativePath(uri, editor, roots, relative).Copy?
    ensures CopyWindowsPath(uri, editor).Copy?
  {
  }

  /** The editor at `/ws/a.txt` under the root `/ws` copies `a.txt` when
      `relative` gives `a.txt`; with no uri and no editor nothing is copied. */
  lemma Examples(relative: (string, string) -> string)
    requires relative("/ws", "/ws/a.txt") == "a.txt"
    ensures CopyWindowsRelativePath(None, Some("/ws/a.txt"), ["/ws"], relative) == Copy("a.txt", "Copied: a.txt")
    ensures CopyWindowsPath(None, None) == Warn("No file selected")
    ensures CopyWindowsPath(None, Some("a/b/c")) == Copy("a\\b\\c", "Copied: a\\b\\c")
  {
    FirstMatchIsBase(["/ws"], "/ws/a.txt", 0);
    IdentityWithoutSlash("a.txt");
    assert ToWindowsPath("a/b/c") == "a\\b\\c";
  }
}
