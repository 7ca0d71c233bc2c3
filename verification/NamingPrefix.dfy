/** Which prefixes the macro accepts, and when an accepted one gives a field the same name
    whether it stands on the struct or on the flatten site around it. */
module NamingPrefix {
  import opened CommonTypes
  import opened CaseConvert
  import opened CasePrefix
  import opened Naming

  datatype PrefixLevel = Root | FlattenSite

  datatype PrefixError = Uninflectable(c: char) | NoDelimiter | Combined

  datatype Parsed = Accepted(prefix: Option<Prefix>) | Rejected(error: PrefixError)

  /** Prefix::from_inflectable_and_exact. */
  function FromInflectableAndExact(inflectable: Option<string>, exact: Option<string>, level: PrefixLevel): Parsed {
    match (inflectable, exact)
    case (Some(p), None) =>
      if ContainsUninflectables(p).Some? then Rejected(Uninflectable(ContainsUninflectables(p).value))
      else if level == Root && !EndsWithDelimiter(p) then Rejected(NoDelimiter)
      else Accepted(Some(Inflectable(p)))
    case (None, Some(p)) => Accepted(Some(Exact(p)))
    case (None, None) => Accepted(None)
    case (Some(_), Some(_)) => Rejected(Combined)
  }

  predicate Inflects(c: char) { !IsSeparator(c) || c == '_' || c == '-' }

  /** The check reports the first offending character, and nothing exactly if there is none. */
  lemma {:induction false} FirstUninflectable(p: string)
    ensures match ContainsUninflectables(p)
            case None => forall i :: 0 <= i < |p| ==> Inflects(p[i])
            case Some(c) => exists i :: 0 <= i < |p| && p[i] == c && !Inflects(c) && forall j :: 0 <= j < i ==> Inflects(p[j])
  {
    if p != "" && Inflects(p[0]) {
      FirstUninflectable(p[1..]);
      match ContainsUninflectables(p[1..])
      case None =>
      case Some(c) =>
        var i :| 0 <= i < |p[1..]| && p[1..][i] == c && !Inflects(c) && forall j :: 0 <= j < i ==> Inflects(p[1..][j]);
        assert p[i + 1] == c && forall j :: 0 <= j < i + 1 ==> Inflects(p[j]);
    }
  }

  /** An inflectable prefix is accepted exactly when it stands alone, every character of it
      can be inflected and, on a struct, it ends with a delimiter. */
  lemma {:induction false} AcceptedIff(p: string, exact: Option<string>, level: PrefixLevel)
    ensures FromInflectableAndExact(Some(p), exact, level) == Accepted(Some(Inflectable(p)))
       <==> exact.None? && (forall i :: 0 <= i < |p| ==> Inflects(p[i]))
            && (level == Root ==> p != "" && (p[|p| - 1] == '_' || p[|p| - 1] == '-'))
  {
    FirstUninflectable(p);
  }

  /** The condition under which the level of an inflectable prefix does not matter. */
  predicate LevelIsIrrelevant(p: string, base: string, s: NameStyle) {
    match s
    case AsDeclared => true
    case PascalCase => !(SeenAfter(p, true, false) && FoldsUpper(base, true))
    case _ => HasAlphanumeric(p) && HasAlphanumeric(base)
  }

  /** For every prefix accepted on a struct: a field is named as if the prefix stood on a
      flatten site around the struct, exactly when it is an exact prefix or the condition
      above holds. */
  lemma {:induction false} RootPrefixLikeFlattenPrefix(inflectable: Option<string>, exact: Option<string>, base: string, s: NameStyle)
    requires FromInflectableAndExact(inflectable, exact, Root).Accepted?
    requires FromInflectableAndExact(inflectable, exact, Root).prefix.Some?
    ensures var p := FromInflectableAndExact(inflectable, exact, Root).prefix.value;
            ApplyRootPrefix(p, base, s) == ApplyPrefixOnly(p, s) + Apply(ToCaseStyle(s), base)
            <==> p.Exact? || LevelIsIrrelevant(p.prefix, base, s)
  {
    match FromInflectableAndExact(inflectable, exact, Root).prefix.value
    case Exact(_) =>
    case Inflectable(p) => PrefixLevelsAgree(ToCaseStyle(s), p, base);
  }

  /** A prefix that is accepted and adds no word, such as `_`, depends on its level: in
      snake_case and kebab-case a flatten site puts a delimiter in front of every name, and
      the struct does not. */
  lemma {:induction false} DelimiterAlone(delim: char, base: string, s: NameStyle)
    requires (delim == '_' || delim == '-') && s in {SnakeCase, ScreamingSnakeCase, KebabCase}
    ensures FromInflectableAndExact(Some([delim]), None, Root) == Accepted(Some(Inflectable([delim])))
    ensures ApplyRootPrefix(Inflectable([delim]), base, s)
            != ApplyPrefixOnly(Inflectable([delim]), s) + Apply(ToCaseStyle(s), base)
  {
    AcceptedIff([delim], None, Root);
    assert !HasAlphanumeric([delim]);
    RootPrefixLikeFlattenPrefix(Some([delim]), None, base, s);
  }

  /** What the two attributes parse to: an exact prefix is kept as it stands, both together and
      neither are told apart, and a rejected prefix is rejected for its first character that is
      no letter, digit, `_` or `-`, or else for the missing delimiter. */
  lemma {:induction false} ParsedAs(inflectable: Option<string>, exact: Option<string>, level: PrefixLevel)
    ensures var parsed := FromInflectableAndExact(inflectable, exact, level);
            match (inflectable, exact)
            case (None, None) => parsed == Accepted(None)
            case (None, Some(x)) => parsed == Accepted(Some(Exact(x)))
            case (Some(_), Some(_)) => parsed == Rejected(Combined)
            case (Some(p), None) =>
              match parsed
              case Accepted(prefix) => prefix == Some(Inflectable(p))
              case Rejected(Uninflectable(c)) =>
                exists i :: 0 <= i < |p| && p[i] == c && !Inflects(c) && forall j :: 0 <= j < i ==> Inflects(p[j])
              case Rejected(NoDelimiter) =>
                level == Root && (p == "" || (p[|p| - 1] != '_' && p[|p| - 1] != '-')) && forall j :: 0 <= j < |p| ==> Inflects(p[j])
              case Rejected(Combined) => false
  {
    if inflectable.Some? { FirstUninflectable(inflectable.value); }
  }
}
