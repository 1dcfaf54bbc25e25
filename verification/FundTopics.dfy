/** Fund slugs, the PostgreSQL schemas and Kafka topics derived from them, and the way
    back that CDC routing takes.

    A trailing `$` in a Python pattern also matches before one final newline, and `.`
    matches anything but a newline; both show in what the patterns accept. */
module FundTopics {
  import opened Market

  // ---------------------------------------------------------------------
  // Strings
  // ---------------------------------------------------------------------

  function Replace(s: string, old_: char, new_: char): (r: string)
    ensures |r| == |s|
    ensures forall i :: 0 <= i < |s| ==> r[i] == if s[i] == old_ then new_ else s[i]
  {
    seq(|s|, i requires 0 <= i < |s| => if s[i] == old_ then new_ else s[i])
  }

  predicate StartsWith(s: string, prefix: string) {
    prefix <= s
  }

  /** s.index(".") */
  function FindDot(s: string): (r: Option<nat>)
    ensures r.Some? ==> r.value < |s| && s[r.value] == '.' && '.' !in s[..r.value]
    ensures r.None? ==> '.' !in s
  {
    if s == "" then None
    else if s[0] == '.' then Some(0)
    else
      var rest := FindDot(s[1..]);
      if rest.None? then None
      else
        assert s[..rest.value + 1] == [s[0]] + s[1..][..rest.value];
        Some(rest.value + 1)
  }

  lemma {:induction false} FindDotAfter(a: string, b: string)
    requires '.' !in a
    ensures FindDot(a + "." + b) == Some(|a|)
  {
    if a == "" {
      assert a + "." + b == "." + b;
    } else {
      assert forall i :: 0 <= i < |a| - 1 ==> a[1..][i] == a[i + 1];
      FindDotAfter(a[1..], b);
      assert (a + "." + b)[1..] == a[1..] + "." + b;
    }
  }

  lemma {:induction false} FindDotAtMost(s: string, i: nat)
    requires i < |s| && s[i] == '.'
    ensures FindDot(s).Some? && FindDot(s).value <= i
  {
    if i > 0 && s[0] != '.' {
      FindDotAtMost(s[1..], i - 1);
    }
  }

  /** What (.+)$ captures from a whole remainder. */
  function Captured(s: string): Option<string> {
    if s != "" && '\n' !in s then Some(s)
    else if |s| > 1 && s[|s| - 1] == '\n' && '\n' !in s[..|s| - 1] then Some(s[..|s| - 1])
    else None
  }

  // ---------------------------------------------------------------------
  // Slugs, schemas and topics
  // ---------------------------------------------------------------------

  predicate SlugChar(c: char) {
    'a' <= c <= 'z' || '0' <= c <= '9' || c == '-'
  }

  /** Lowercase letters, digits and hyphens, at least one. */
  predicate PlainSlug(s: string) {
    s != "" && forall i :: 0 <= i < |s| ==> SlugChar(s[i])
  }

  predicate TrailingNewline(s: string) {
    s != "" && s[|s| - 1] == '\n'
  }

  /** What the pattern in fund_schema_name accepts. */
  predicate AcceptedSlug(s: string) {
    PlainSlug(s) || (TrailingNewline(s) && PlainSlug(s[..|s| - 1]))
  }

  /** None stands for the ValueError. */
  function FundSchemaName(slug: string): Option<string> {
    if AcceptedSlug(slug) then Some("fund_" + Replace(slug, '-', '_')) else None
  }

  function FundTopic(slug: string, base: string): string {
    "fund-" + slug + "." + base
  }

  function SharedTopic(base: string): string {
    "shared." + base
  }

  function CustomerTopic(customer: string, slug: string, base: string): string {
    "customer-" + customer + "." + "fund-" + slug + "." + base
  }

  /** None stands for the ValueError of index(). */
  function BaseTopicName(topic: string): Option<string> {
    if StartsWith(topic, "shared.") then Some(topic[7..])
    else if StartsWith(topic, "fund-") then
      var dot := FindDot(topic[5..]);
      if dot.None? then None else Some(topic[5 + dot.value + 1..])
    else Some(topic)
  }

  // ---------------------------------------------------------------------
  // CDC routing
  // ---------------------------------------------------------------------

  datatype CdcTopic = CdcTopic(schema: string, table: string)

  /** _CDC_TOPIC_PATTERN: the schema runs to the first dot. */
  function MatchCdc(topic: string): Option<CdcTopic> {
    if !StartsWith(topic, "cdc.") then None
    else
      var rest := topic[4..];
      var dot := FindDot(rest);
      if dot.None? || dot.value == 0 then None
      else
        var table := Captured(rest[dot.value + 1..]);
        if table.None? then None else Some(CdcTopic(rest[..dot.value], table.value))
  }

  /** _schema_to_fund_slug */
  function SchemaToSlug(schema: string): Option<string> {
    if !StartsWith(schema, "fund_") then None
    else
      var group := Captured(schema[5..]);
      if group.None? then None else Some(Replace(group.value, '_', '-'))
  }

  /** The topic suffix _map_cdc_to_domain_event gives a change; None for changes it drops. */
  function Suffix(table: string, operation: string, status: string): Option<string> {
    var upserts := {"c", "u", "r"};
    if table == "current_positions" && operation in upserts then Some("positions.changed")
    else if table == "orders" then
      if operation == "c" then Some("orders.created")
      else if operation == "u" && status == "filled" then Some("orders.filled")
      else None
    else if table == "compliance_violations" && operation in upserts then Some("compliance.violations")
    else if table == "risk_snapshots" && operation in {"c", "r"} then Some("risk.updated")
    else if table == "exposure_snapshots" && operation in {"c", "r"} then Some("exposures.updated")
    else if (table == "cash_entries" || table == "settlement_entries") && operation in upserts then
      Some("cash.settlement.created")
    else None
  }

  /** The topic _process_message publishes a change to; None when it skips the message. */
  function Routed(topic: string, operation: string, status: string): Option<string> {
    var m := MatchCdc(topic);
    if m.None? then None
    else
      var slug := SchemaToSlug(m.value.schema);
      var suffix := Suffix(m.value.table, operation, status);
      if slug.None? || suffix.None? then None else Some("fund-" + slug.value + "." + suffix.value)
  }

  /** The topic Debezium publishes a table's changes on. */
  function DebeziumTopic(schema: string, table: string): string {
    "cdc." + schema + "." + table
  }

  // ---------------------------------------------------------------------
  // Round trips
  // ---------------------------------------------------------------------

  lemma AcceptedHasNo(slug: string, c: char)
    requires AcceptedSlug(slug) && !SlugChar(c) && c != '\n'
    ensures c !in slug
  {
    forall i | 0 <= i < |slug| ensures slug[i] != c {
      if !PlainSlug(slug) && i < |slug| - 1 {
        assert slug[..|slug| - 1][i] == slug[i];
      }
    }
  }

  predicate LettersDigitsHyphens(s: string) {
    s != "" && forall c :: c in s ==> 'a' <= c <= 'z' || '0' <= c <= '9' || c == '-'
  }

  /** A slug has a schema exactly when it is lowercase letters, digits and hyphens, at least
      one, with or without one newline after them. */
  lemma AcceptedIff(slug: string)
    ensures FundSchemaName(slug).Some? <==>
      exists plain :: LettersDigitsHyphens(plain) && (slug == plain || slug == plain + "\n")
  {
    if AcceptedSlug(slug) {
      var plain := if PlainSlug(slug) then slug else slug[..|slug| - 1];
      assert LettersDigitsHyphens(plain);
      assert slug == plain || slug == plain + "\n";
    }
    if plain :| LettersDigitsHyphens(plain) && (slug == plain || slug == plain + "\n") {
      PlainFromLetters(plain);
      assert slug == plain + "\n" ==> slug[..|slug| - 1] == plain;
    }
  }

  lemma PlainFromLetters(s: string)
    requires LettersDigitsHyphens(s)
    ensures PlainSlug(s)
  {
    assert forall i :: 0 <= i < |s| ==> s[i] in s;
  }

  lemma ReplaceBack(s: string, a: char, b: char)
    requires b !in s
    ensures Replace(Replace(s, a, b), b, a) == s
  {
    var t := Replace(Replace(s, a, b), b, a);
    forall i | 0 <= i < |s| ensures t[i] == s[i] {
      assert s[i] in s;
    }
  }

  /** Hyphens to underscores and back, for a plain slug with or without a newline after it. */
  lemma PlainSlugBack(plain: string)
    requires PlainSlug(plain)
    ensures var body := Replace(plain, '-', '_');
      && Captured(body) == Some(body) && Captured(body + "\n") == Some(body)
      && Replace(body, '_', '-') == plain
  {
    var body := Replace(plain, '-', '_');
    AcceptedHasNo(plain, '_');
    ReplaceBack(plain, '-', '_');
    forall i | 0 <= i < |body| ensures body[i] != '\n' {
      assert SlugChar(plain[i]);
    }
    var s := body + "\n";
    assert s[..|s| - 1] == body;
    assert s[|s| - 1] in s;
  }

  /** The schema of an accepted slug leads back to the slug, less a trailing newline. */
  lemma SlugFromSchema(slug: string)
    requires AcceptedSlug(slug)
    ensures SchemaToSlug(FundSchemaName(slug).value)
         == Some(if TrailingNewline(slug) then slug[..|slug| - 1] else slug)
  {
    if PlainSlug(slug) {
      assert SlugChar(slug[|slug| - 1]);
      PlainSlugBack(slug);
      SlugOfCaptured(Replace(slug, '-', '_'));
    } else {
      var plain := slug[..|slug| - 1];
      PlainSlugBack(plain);
      ReplaceBeforeNewline(slug);
      SlugOfCaptured(Replace(plain, '-', '_') + "\n");
    }
  }

  lemma ReplaceBeforeNewline(slug: string)
    requires TrailingNewline(slug)
    ensures Replace(slug, '-', '_') == Replace(slug[..|slug| - 1], '-', '_') + "\n"
  {
    var whole, part := Replace(slug, '-', '_'), Replace(slug[..|slug| - 1], '-', '_') + "\n";
    forall i | 0 <= i < |slug| ensures whole[i] == part[i] {
      if i < |slug| - 1 {
        assert slug[..|slug| - 1][i] == slug[i];
      }
    }
  }

  lemma SlugOfCaptured(body: string)
    requires Captured(body).Some?
    ensures SchemaToSlug("fund_" + body) == Some(Replace(Captured(body).value, '_', '-'))
  {
    assert ("fund_" + body)[5..] == body;
  }

  /** An accepted slug survives the way to its schema and back exactly when it does not
      end in a newline, which the slug pattern lets through. */
  lemma SlugRoundTripIff(slug: string)
    requires FundSchemaName(slug).Some?
    ensures SchemaToSlug(FundSchemaName(slug).value) == Some(slug) <==> !TrailingNewline(slug)
  {
    SlugFromSchema(slug);
  }

  /** Distinct slugs have distinct schemas. */
  lemma SchemasDistinct(a: string, b: string)
    requires FundSchemaName(a).Some? && FundSchemaName(a) == FundSchemaName(b)
    ensures a == b
  {
    var x, y := Replace(a, '-', '_'), Replace(b, '-', '_');
    assert ("fund_" + x)[5..] == x && ("fund_" + y)[5..] == y;
    AcceptedHasNo(a, '_');
    AcceptedHasNo(b, '_');
    ReplaceBack(a, '-', '_');
    ReplaceBack(b, '-', '_');
  }

  lemma SchemaHasNoDot(slug: string)
    requires AcceptedSlug(slug)
    ensures '.' !in FundSchemaName(slug).value
  {
    var body := Replace(slug, '-', '_');
    AcceptedHasNo(slug, '.');
    var schema := "fund_" + body;
    forall i | 0 <= i < |schema| ensures schema[i] != '.' {
      if i >= 5 {
        assert schema[i] == body[i - 5] && slug[i - 5] in slug;
      }
    }
  }

  /** The CDC topic of a fund's table splits back into the schema and the table. */
  lemma CdcTopicSplits(slug: string, table: string)
    requires FundSchemaName(slug).Some? && table != "" && '\n' !in table
    ensures MatchCdc(DebeziumTopic(FundSchemaName(slug).value, table)) == Some(CdcTopic(FundSchemaName(slug).value, table))
  {
    var schema := FundSchemaName(slug).value;
    var topic := DebeziumTopic(schema, table);
    SchemaHasNoDot(slug);
    var rest := schema + "." + table;
    assert topic == "cdc." + rest && topic[4..] == rest;
    FindDotAfter(schema, table);
    assert rest[|schema| + 1..] == table && rest[..|schema|] == schema;
  }

  /** A change in a fund's table is republished on the fund's own topic, for every
      change that is forwarded at all, exactly when the slug has no trailing newline. */
  lemma RoutedToFundTopicIff(slug: string, table: string, operation: string, status: string)
    requires FundSchemaName(slug).Some? && table != "" && '\n' !in table
    requires Suffix(table, operation, status).Some?
    ensures Routed(DebeziumTopic(FundSchemaName(slug).value, table), operation, status)
              == Some(FundTopic(slug, Suffix(table, operation, status).value))
            <==> !TrailingNewline(slug)
  {
    CdcTopicSplits(slug, table);
    SlugFromSchema(slug);
    if TrailingNewline(slug) {
      var suffix := Suffix(table, operation, status).value;
      assert |FundTopic(slug[..|slug| - 1], suffix)| != |FundTopic(slug, suffix)|;
    }
  }

  /** Which changes of a fund's tables reach which of its topics. */
  predicate Reports(base: string, table: string, operation: string, status: string) {
    var upsert := operation == "c" || operation == "u" || operation == "r";
    var insert := operation == "c" || operation == "r";
    || (base == "positions.changed" && table == "current_positions" && upsert)
    || (base == "orders.created" && table == "orders" && operation == "c")
    || (base == "orders.filled" && table == "orders" && operation == "u" && status == "filled")
    || (base == "compliance.violations" && table == "compliance_violations" && upsert)
    || (base == "risk.updated" && table == "risk_snapshots" && insert)
    || (base == "exposures.updated" && table == "exposure_snapshots" && insert)
    || (base == "cash.settlement.created" && (table == "cash_entries" || table == "settlement_entries") && upsert)
  }

  /** A change of a fund's table is published on one of its topics exactly when that topic
      reports it; no other change is published on any of them, deletions in particular. */
  lemma RoutedReportsIff(slug: string, base: string, table: string, operation: string, status: string)
    requires FundSchemaName(slug).Some? && !TrailingNewline(slug) && table != "" && '\n' !in table
    ensures Routed(DebeziumTopic(FundSchemaName(slug).value, table), operation, status) == Some(FundTopic(slug, base))
            <==> Reports(base, table, operation, status)
  {
    RoutedIs(slug, table, operation, status);
    SuffixReports(base, table, operation, status);
    var suffix := Suffix(table, operation, status);
    if suffix.Some? && FundTopic(slug, suffix.value) == FundTopic(slug, base) {
      FundTopicsDistinct(slug, slug, suffix.value, base);
    }
  }

  lemma RoutedIs(slug: string, table: string, operation: string, status: string)
    requires FundSchemaName(slug).Some? && !TrailingNewline(slug) && table != "" && '\n' !in table
    ensures var suffix := Suffix(table, operation, status);
      Routed(DebeziumTopic(FundSchemaName(slug).value, table), operation, status)
      == if suffix.None? then None else Some(FundTopic(slug, suffix.value))
  {
    CdcTopicSplits(slug, table);
    SlugFromSchema(slug);
  }

  lemma SuffixReports(base: string, table: string, operation: string, status: string)
    ensures Reports(base, table, operation, status) <==> Suffix(table, operation, status) == Some(base)
  {
  }

  /** The topics whose events are kept for audit. */
  function FundAuditTopics(slug: string): seq<string> {
    [FundTopic(slug, "positions.changed"), FundTopic(slug, "trades.executed"), FundTopic(slug, "exposures.updated"),
     FundTopic(slug, "compliance.violations"), FundTopic(slug, "orders.created"), FundTopic(slug, "orders.filled"),
     FundTopic(slug, "trades.approved"), FundTopic(slug, "trades.rejected"), FundTopic(slug, "risk.updated"),
     FundTopic(slug, "cash.settlement.created"), FundTopic(slug, "cash.settlement.settled"), FundTopic(slug, "fx-hedging.events")]
  }

  /** Every change that is forwarded goes to a topic kept for audit. */
  lemma RoutedIsAudited(slug: string, table: string, operation: string, status: string)
    requires FundSchemaName(slug).Some? && !TrailingNewline(slug) && table != "" && '\n' !in table
    ensures var topic := Routed(DebeziumTopic(FundSchemaName(slug).value, table), operation, status);
      topic.Some? ==> topic.value in FundAuditTopics(slug)
  {
    RoutedIs(slug, table, operation, status);
    var all := FundAuditTopics(slug);
    assert all[0] in all && all[2] in all && all[3] in all && all[4] in all && all[5] in all && all[8] in all && all[9] in all;
  }

  /** Changes in schemas that are not a fund's are not forwarded. */
  lemma OtherSchemasSkipped(schema: string, table: string, operation: string, status: string)
    requires schema != "" && '.' !in schema
    ensures Routed(DebeziumTopic(schema, table), operation, status).Some? ==> "fund_" <= schema
  {
    var topic, rest := DebeziumTopic(schema, table), schema + "." + table;
    assert topic == "cdc." + rest && topic[4..] == rest;
    FindDotAfter(schema, table);
    assert rest[..|schema|] == schema;
  }

  /** The base name of a fund topic is the base it was built from exactly when the slug has no dot. */
  lemma BaseOfFundTopicIff(slug: string, base: string)
    ensures BaseTopicName(FundTopic(slug, base)) == Some(base) <==> '.' !in slug
  {
    var topic, rest := FundTopic(slug, base), slug + "." + base;
    assert topic == "fund-" + rest && topic[5..] == rest;
    assert topic[0] == 'f' && !StartsWith(topic, "shared.");
    if '.' !in slug {
      FindDotAfter(slug, base);
      assert topic[5 + |slug| + 1..] == base;
    } else {
      var i :| 0 <= i < |slug| && slug[i] == '.';
      assert rest[i] == '.';
      FindDotAtMost(rest, i);
    }
  }

  /** ... so every forwarded change's base name is its suffix, newline or not. */
  lemma BaseOfRouted(slug: string, base: string)
    requires AcceptedSlug(slug)
    ensures BaseTopicName(FundTopic(slug, base)) == Some(base)
  {
    AcceptedHasNo(slug, '.');
    BaseOfFundTopicIff(slug, base);
  }

  lemma BaseOfSharedTopic(base: string)
    ensures BaseTopicName(SharedTopic(base)) == Some(base)
  {
    assert SharedTopic(base)[7..] == base;
  }

  /** Customer topics are not stripped at all. */
  lemma BaseOfCustomerTopic(customer: string, slug: string, base: string)
    ensures BaseTopicName(CustomerTopic(customer, slug, base)) == Some(CustomerTopic(customer, slug, base))
    ensures BaseTopicName(CustomerTopic(customer, slug, base)) != Some(base)
  {
    var topic := CustomerTopic(customer, slug, base);
    assert topic[0] == 'c';
  }

  /** Two customers' funds never share a topic either, if neither customers nor slugs have a dot. */
  lemma CustomerTopicsDistinct(a: string, slugA: string, x: string, b: string, slugB: string, y: string)
    requires '.' !in a && '.' !in b && '.' !in slugA && '.' !in slugB
    requires CustomerTopic(a, slugA, x) == CustomerTopic(b, slugB, y)
    ensures a == b && slugA == slugB && x == y
  {
    var p, q := "fund-" + slugA + "." + x, "fund-" + slugB + "." + y;
    assert CustomerTopic(a, slugA, x) == "customer-" + (a + "." + p);
    assert CustomerTopic(b, slugB, y) == "customer-" + (b + "." + q);
    SplitAtDot("customer-", a, p, b, q);
    assert p == "fund-" + (slugA + "." + x) && q == "fund-" + (slugB + "." + y);
    SplitAtDot("fund-", slugA, x, slugB, y);
  }

  lemma SplitAtDot(prefix: string, a: string, x: string, b: string, y: string)
    requires '.' !in a && '.' !in b && prefix + (a + "." + x) == prefix + (b + "." + y)
    ensures a == b && x == y
  {
    var p, q := a + "." + x, b + "." + y;
    assert (prefix + p)[|prefix|..] == p && (prefix + q)[|prefix|..] == q;
    FindDotAfter(a, x);
    FindDotAfter(b, y);
    assert p[..|a|] == a && q[..|b|] == b;
    assert p[|a| + 1..] == x && q[|b| + 1..] == y;
  }

  /** Two funds never share a topic, whatever the suffixes. */
  lemma FundTopicsDistinct(a: string, b: string, x: string, y: string)
    requires AcceptedSlug(a) && AcceptedSlug(b) && FundTopic(a, x) == FundTopic(b, y)
    ensures a == b && x == y
  {
    assert FundTopic(a, x) == "fund-" + (a + "." + x) && FundTopic(b, y) == "fund-" + (b + "." + y);
    AcceptedHasNo(a, '.');
    AcceptedHasNo(b, '.');
    SplitAtDot("fund-", a, x, b, y);
  }
}
