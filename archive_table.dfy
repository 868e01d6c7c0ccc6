/** The cells of one row of the project archive table: the date shown for the timeline, the skill
    and tag badges with their overflow count, and the link cell. */
module ArchiveTable {
  import opened Base
  import opened ProjectModel

  /** The instant `getFormattedTimeline` formats: the end of the timeline if it has one, else its
      start. The month-and-year formatting itself is not modelled. */
  function TimelineDate(t: Timeline): (d: Millis)
    ensures d == t.start || t.end == Some(d)
    ensures t.end.Some? && t.end.value >= t.start ==> d >= t.start
    ensures t.end.Some? ==> d == t.end.value
  {
    match t.end
    case Some(e) => e
    case None => t.start
  }

  /** `list || []`. */
  function OrEmpty(l: Option<seq<string>>): seq<string> {
    if l.Some? then l.value else []
  }

  /** The number of skills and tags together, a missing list counting as empty. */
  function LabelCount(skills: Option<seq<string>>, tags: Option<seq<string>>): nat {
    |OrEmpty(skills)| + |OrEmpty(tags)|
  }

  /** The badges shown: the first four of the skills followed by the tags. */
  function Badges(skills: Option<seq<string>>, tags: Option<seq<string>>): (r: seq<string>)
    ensures |r| == Min(4, LabelCount(skills, tags))
    ensures forall i :: 0 <= i < |r| ==>
              r[i] == if i < |OrEmpty(skills)| then OrEmpty(skills)[i] else OrEmpty(tags)[i - |OrEmpty(skills)|]
  {
    var all := OrEmpty(skills) + OrEmpty(tags);
    if |all| <= 4 then all else all[..4]
  }

  /** The "+n" badge: present exactly when there are more than four labels, showing how many are hidden. */
  function Overflow(skills: Option<seq<string>>, tags: Option<seq<string>>): (r: Option<nat>)
    ensures r.Some? <==> LabelCount(skills, tags) > 4
    ensures r.Some? ==> r.value == LabelCount(skills, tags) - 4
  {
    var n := LabelCount(skills, tags);
    if n > 4 then Some(n - 4) else None
  }

  /** Every label is accounted for: the badges shown plus the overflow count give the total. */
  lemma BadgesAccountForAll(skills: Option<seq<string>>, tags: Option<seq<string>>)
    ensures |Badges(skills, tags)| + (if Overflow(skills, tags).Some? then Overflow(skills, tags).value else 0)
            == LabelCount(skills, tags)
  {
  }

  /** JavaScript truthiness of an optional string: missing and empty are false. */
  predicate Truthy(s: Option<string>) {
    s.Some? && s.value != ""
  }

  /** JavaScript `a || b` on optional strings. */
  function JsOr(a: Option<string>, b: Option<string>): Option<string> {
    if Truthy(a) then a else b
  }

  datatype LinkCell = Link(href: string) | Dash

  /** The "where" cell: a link when `liveUrl || githubUrl` is truthy, to
      `liveUrl || githubUrl || "#"`; a dash otherwise. */
  function WhereCell(liveUrl: Option<string>, githubUrl: Option<string>): (c: LinkCell)
    ensures Truthy(liveUrl) ==> c == Link(liveUrl.value)
    ensures !Truthy(liveUrl) && Truthy(githubUrl) ==> c == Link(githubUrl.value)
    ensures c.Dash? <==> !Truthy(liveUrl) && !Truthy(githubUrl)
  {
    var either := JsOr(liveUrl, githubUrl);
    if Truthy(either) then Link(JsOr(either, Some("#")).value) else Dash
  }

  /** The `"#"` fallback of the link target is never used: a link always points at a non-empty URL
      that is one of the project's two. */
  lemma LinkTargetIsAProjectUrl(liveUrl: Option<string>, githubUrl: Option<string>)
    ensures WhereCell(liveUrl, githubUrl).Link? ==>
              && WhereCell(liveUrl, githubUrl).href != ""
              && (Some(WhereCell(liveUrl, githubUrl).href) == liveUrl || Some(WhereCell(liveUrl, githubUrl).href) == githubUrl)
  {
  }
}
