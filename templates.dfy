/**
 * The filter fvirt applies to the files of its template directory
 * (fvirt/templates/__init__.py): hidden files, dunder files, Python
 * sources and bytecode, and editor swap and backup files are not templates.
 */
module Templates {
  import opened PyStr

  /** `template_filter(name)`. */
  function TemplateFilter(name: string): bool
  {
    !(StartsWith(name, "__") || StartsWith(name, ".")
      || EndsWith(name, ".py") || EndsWith(name, ".pyc") || EndsWith(name, ".pyo")
      || EndsWith(name, ".swp") || EndsWith(name, "~"))
  }

  /** The excluded prefixes and suffixes, as data. */
  const BadPrefixes: seq<string> := ["__", "."]
  const BadSuffixes: seq<string> := [".py", ".pyc", ".pyo", ".swp", "~"]

  /** A name is accepted exactly when it has none of the excluded prefixes and none of the excluded suffixes. */
  lemma FilterByTables(name: string)
    ensures TemplateFilter(name) <==>
      (forall k :: 0 <= k < |BadPrefixes| ==> !StartsWith(name, BadPrefixes[k]))
      && (forall k :: 0 <= k < |BadSuffixes| ==> !EndsWith(name, BadSuffixes[k]))
  {
    if !TemplateFilter(name) {
      if StartsWith(name, "__") { assert StartsWith(name, BadPrefixes[0]); }
      else if StartsWith(name, ".") { assert StartsWith(name, BadPrefixes[1]); }
      else if EndsWith(name, ".py") { assert EndsWith(name, BadSuffixes[0]); }
      else if EndsWith(name, ".pyc") { assert EndsWith(name, BadSuffixes[1]); }
      else if EndsWith(name, ".pyo") { assert EndsWith(name, BadSuffixes[2]); }
      else if EndsWith(name, ".swp") { assert EndsWith(name, BadSuffixes[3]); }
      else { assert EndsWith(name, BadSuffixes[4]); }
    }
  }

  /**
   * The verdict depends only on the first two and the last four characters:
   * two names that agree there are filtered alike.
   */
  lemma FilterIsLocal(a: string, b: string)
    requires |a| >= 4 && |b| >= 4
    requires a[..2] == b[..2] && a[|a| - 4..] == b[|b| - 4..]
    ensures TemplateFilter(a) == TemplateFilter(b)
  {
    EdgesDecide(a);
    EdgesDecide(b);
  }

  lemma EdgesDecide(s: string)
    requires |s| >= 4
    ensures StartsWith(s, "__") == (s[..2] == "__")
    ensures StartsWith(s, ".") == (s[..2][0] == '.')
    ensures EndsWith(s, ".py") == (s[|s| - 4..][1..] == ".py")
    ensures EndsWith(s, ".pyc") == (s[|s| - 4..] == ".pyc")
    ensures EndsWith(s, ".pyo") == (s[|s| - 4..] == ".pyo")
    ensures EndsWith(s, ".swp") == (s[|s| - 4..] == ".swp")
    ensures EndsWith(s, "~") == (s[|s| - 4..][3] == '~')
  {
    assert s[|s| - 4..][1..] == s[|s| - 3..];
    assert StartsWith(s, ".") == (s[0] == '.');
    assert EndsWith(s, "~") == (s[|s| - 1] == '~');
  }

  /** Appending a backup-file tilde rejects any name, and so does prefixing a dot. */
  lemma BackupAndHiddenRejected(name: string)
    ensures !TemplateFilter(name + "~")
    ensures !TemplateFilter("." + name)
  {
    assert ("." + name)[..1] == ".";
    assert (name + "~")[|name + "~"| - 1..] == "~";
  }
}
