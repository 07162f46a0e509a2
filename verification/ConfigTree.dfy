/** The tree of a configuration file (srs_app_config.hpp). */
module ConfigTree {
  datatype Directive = Directive(name: string, args: seq<string>, subs: seq<Directive>, line: int)

  /** The tree without the line numbers. */
  function Erase(d: Directive): Directive {
    d.(subs := EraseAll(d.subs), line := 0)
  }

  function EraseAll(ds: seq<Directive>): (r: seq<Directive>)
    ensures |r| == |ds|
  {
    if ds == [] then [] else [Erase(ds[0])] + EraseAll(ds[1..])
  }
}
