/**
 * The command line of the C++ viewer (`main`): every argument after the
 * program name is an option when it starts with '-' and a file otherwise,
 * and each file is then added to the main window as a scene, in order.
 */
module Cli {

  /** `arg.substr(0, 1) == "-"`: the first character is a dash; an empty argument has none. */
  predicate IsOption(arg: string): (b: bool)
    ensures b <==> (if |arg| >= 1 then arg[..1] else arg) == "-"
  {
    |arg| > 0 && arg[0] == '-'
  }

  /** The options among `args`, in their order. */
  function Options(args: seq<string>): (r: seq<string>)
    ensures |r| <= |args|
    ensures forall k :: 0 <= k < |r| ==> IsOption(r[k])
  {
    if args == [] then []
    else Options(args[..|args| - 1]) + (if IsOption(args[|args| - 1]) then [args[|args| - 1]] else [])
  }

  /** The files among `args`, in their order. */
  function Files(args: seq<string>): (r: seq<string>)
    ensures |r| <= |args|
    ensures forall k :: 0 <= k < |r| ==> !IsOption(r[k])
  {
    if args == [] then []
    else Files(args[..|args| - 1]) + (if IsOption(args[|args| - 1]) then [] else [args[|args| - 1]])
  }

  /** Every argument lands in exactly one of the two lists. */
  lemma {:induction false} PartitionCounts(args: seq<string>)
    ensures |Options(args)| + |Files(args)| == |args|
  {
    if args != [] {
      PartitionCounts(args[..|args| - 1]);
    }
  }

  /** Together the two lists hold the arguments, each as often as it occurs. */
  lemma {:induction false} PartitionMultiset(args: seq<string>)
    ensures multiset(Options(args)) + multiset(Files(args)) == multiset(args)
  {
    if args != [] {
      var n := |args|;
      var last := args[n - 1];
      PartitionMultiset(args[..n - 1]);
      assert args == args[..n - 1] + [last];
      assert multiset(args) == multiset(args[..n - 1]) + multiset{last};
      if IsOption(last) {
        assert multiset(Options(args)) == multiset(Options(args[..n - 1])) + multiset{last};
        assert Files(args) == Files(args[..n - 1]) + [];
      } else {
        assert multiset(Files(args)) == multiset(Files(args[..n - 1])) + multiset{last};
        assert Options(args) == Options(args[..n - 1]) + [];
      }
    }
  }

  /** An argument is among the options exactly when it is an argument that starts with a dash. */
  lemma {:induction false} OptionsMembers(args: seq<string>, a: string)
    ensures a in Options(args) <==> a in args && IsOption(a)
    ensures a in Files(args) <==> a in args && !IsOption(a)
  {
    if args != [] {
      var n := |args|;
      OptionsMembers(args[..n - 1], a);
      assert args == args[..n - 1] + [args[n - 1]];
    }
  }

  predicate Increasing(idx: seq<nat>) {
    forall i, j :: 0 <= i < j < |idx| ==> idx[i] < idx[j]
  }

  /**
   * The options keep their relative order: they sit in the arguments at
   * strictly increasing positions.
   */
  lemma {:induction false} OptionsInOrder(args: seq<string>) returns (idx: seq<nat>)
    ensures |idx| == |Options(args)| && Increasing(idx)
    ensures forall k :: 0 <= k < |idx| ==> idx[k] < |args| && Options(args)[k] == args[idx[k]]
  {
    if args == [] {
      return [];
    }
    var n := |args|;
    var pre := OptionsInOrder(args[..n - 1]);
    if IsOption(args[n - 1]) {
      idx := pre + [n - 1];
    } else {
      idx := pre;
    }
  }

  /** The files keep their relative order in the same way. */
  lemma {:induction false} FilesInOrder(args: seq<string>) returns (idx: seq<nat>)
    ensures |idx| == |Files(args)| && Increasing(idx)
    ensures forall k :: 0 <= k < |idx| ==> idx[k] < |args| && Files(args)[k] == args[idx[k]]
  {
    if args == [] {
      return [];
    }
    var n := |args|;
    var pre := FilesInOrder(args[..n - 1]);
    if IsOption(args[n - 1]) {
      idx := pre;
    } else {
      idx := pre + [n - 1];
    }
  }

  /** The split loop of `main`: it starts at index 1, so the program name is never classified. */
  method Partition(arguments: seq<string>) returns (options: seq<string>, files: seq<string>)
    ensures |arguments| <= 1 ==> options == [] && files == []
    ensures |arguments| > 1 ==> options == Options(arguments[1..]) && files == Files(arguments[1..])
  {
    options, files := [], [];
    var i := 1;
    while i < |arguments|
      invariant |arguments| > 1 ==> 1 <= i <= |arguments|
      invariant |arguments| > 1 ==> options == Options(arguments[1..i]) && files == Files(arguments[1..i])
      invariant |arguments| <= 1 ==> options == [] && files == []
    {
      assert arguments[1..i + 1][..i - 1] == arguments[1..i];
      if |arguments[i]| >= 1 && arguments[i][..1] == "-" {
        options := options + [arguments[i]];
      } else {
        files := files + [arguments[i]];
      }
      i := i + 1;
    }
    if |arguments| > 1 {
      assert arguments[1..i] == arguments[1..];
    }
  }

  /** The main window, seen only through the scenes it is asked to add. */
  class MainWindow {
    var scenes: seq<string>

    constructor ()
      ensures scenes == []
    {
      scenes := [];
    }

    /** `addScene`. */
    method AddScene(file: string)
      modifies this
      ensures scenes == old(scenes) + [file]
    {
      scenes := scenes + [file];
    }
  }

  /** The second loop of `main`: one `addScene` per file, in file order. */
  method AddScenes(win: MainWindow, files: seq<string>)
    modifies win
    ensures win.scenes == old(win.scenes) + files
  {
    var i := 0;
    while i < |files|
      invariant 0 <= i <= |files|
      invariant win.scenes == old(win.scenes) + files[..i]
    {
      win.AddScene(files[i]);
      assert files[..i + 1] == files[..i] + [files[i]];
      i := i + 1;
    }
    assert files[..i] == files;
  }

  /** `main` after the window is made: the files of the command line become scenes, and no option does. */
  method Start(win: MainWindow, arguments: seq<string>)
    modifies win
    ensures |arguments| <= 1 ==> win.scenes == old(win.scenes)
    ensures |arguments| > 1 ==> win.scenes == old(win.scenes) + Files(arguments[1..])
    ensures forall k :: |old(win.scenes)| <= k < |win.scenes| ==> !IsOption(win.scenes[k])
  {
    var options, files := Partition(arguments);
    AddScenes(win, files);
  }
}
