/**
 * getThumbnailFile and getImageFile: the output file next to the input and
 * the ImageMagick argument list built for it.  Running the command is not
 * part of this model; the methods return the list they would run.
 */
module ConversionInvoker {
  import opened Wrappers
  import opened ThumbnailConfig
  import opened JavaStrings
  import FilterFacade

  /** A file as a parent directory and a name in it. */
  datatype File = File(parent: string, name: string)

  /** File.getAbsolutePath for a file whose parent is an absolute directory. */
  function AbsolutePath(f: File): string {
    f.parent + "/" + f.name
  }

  /** The argument tokens of an IMOperation. */
  datatype Op = AddImage(path: string) | Thumbnail(width: int, height: int) | Flatten

  /** An IMOperation under construction: its arguments so far. */
  class IMOperation {
    var args: seq<Op>

    constructor ()
      ensures args == []
    {
      args := [];
    }

    method AddImage(path: string)
      modifies this
      ensures args == old(args) + [Op.AddImage(path)]
    {
      args := args + [Op.AddImage(path)];
    }

    method Thumbnail(width: int, height: int)
      modifies this
      ensures args == old(args) + [Op.Thumbnail(width, height)]
    {
      args := args + [Op.Thumbnail(width, height)];
    }

    method Flatten()
      modifies this
      ensures args == old(args) + [Op.Flatten]
    {
      args := args + [Op.Flatten];
    }
  }

  /** The sibling output file: same directory, ".jpg" appended to the name. */
  function OutputFile(f: File): (f2: File)
    ensures f2.parent == f.parent && f2.name == FilterFacade.GetFilteredName(Some(f.name))
    ensures f2 != f && AbsolutePath(f2) != AbsolutePath(f)
  {
    File(f.parent, f.name + ".jpg")
  }

  /** The page selector appended to the input path: "[" + page + "]". */
  function PageSelector(page: int): string {
    "[" + IntToString(page) + "]"
  }

  /** Number of Flatten directives in an argument list. */
  function FlattenCount(args: seq<Op>): nat {
    if args == [] then 0 else FlattenCount(args[..|args| - 1]) + (if args[|args| - 1] == Flatten then 1 else 0)
  }

  method GetThumbnailFile(cfg: Config, f: File) returns (f2: File, args: seq<Op>)
    ensures f2 == OutputFile(f)
    ensures args == [AddImage(AbsolutePath(f)), Thumbnail(cfg.width, cfg.height), AddImage(AbsolutePath(f2))]
  {
    f2 := File(f.parent, f.name + ".jpg");
    var op := new IMOperation();
    op.AddImage(AbsolutePath(f));
    op.Thumbnail(cfg.width, cfg.height);
    op.AddImage(AbsolutePath(f2));
    args := op.args;
  }

  method GetImageFile(cfg: Config, f: File, page: int) returns (f2: File, args: seq<Op>)
    ensures f2 == OutputFile(f)
    ensures |args| == (if cfg.flatten then 3 else 2)
    ensures args[0] == AddImage(AbsolutePath(f) + PageSelector(page))
    ensures args[|args| - 1] == AddImage(AbsolutePath(f2))
    ensures cfg.flatten ==> args[1] == Flatten
    ensures FlattenCount(args) == (if cfg.flatten then 1 else 0)
    ensures forall k | 0 <= k < |args| :: !args[k].Thumbnail?
  {
    f2 := File(f.parent, f.name + ".jpg");
    var op := new IMOperation();
    var s := PageSelector(page);
    op.AddImage(AbsolutePath(f) + s);
    if cfg.flatten {
      op.Flatten();
    }
    op.AddImage(AbsolutePath(f2));
    args := op.args;
    assert [args[0]][..0] == [];
    assert FlattenCount([args[0]]) == 0;
    if cfg.flatten {
      assert args[..2] == [args[0], Flatten] && args[..2][..1] == [args[0]];
      assert FlattenCount(args[..2]) == 1;
    } else {
      assert args[..1] == [args[0]];
    }
  }

  /** The input argument of getImageFile determines the page requested. */
  lemma PageArgumentInjective(f: File, p: int, q: int)
    requires AddImage(AbsolutePath(f) + PageSelector(p)) == AddImage(AbsolutePath(f) + PageSelector(q))
    ensures p == q
  {
    var a := AbsolutePath(f);
    var sp, sq := PageSelector(p), PageSelector(q);
    assert sp == (a + sp)[|a|..] == (a + sq)[|a|..] == sq;
    assert IntToString(p) == sp[1..|sp| - 1];
    assert IntToString(q) == sq[1..|sq| - 1];
    IntToStringInjective(p, q);
  }
}
