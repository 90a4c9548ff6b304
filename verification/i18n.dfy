/** The translation tables and the translator of the web client
    (web/src/i18n/index.ts). */
module I18n {
  import opened Optional
  import opened JsText

  datatype Locale = Zh | En

  /** The two tables (web/src/i18n/index.ts, lines 6-108 for `zh` and
      109-211 for `en`). They list the same keys in the same order, so each
      key is stored once with its `zh` and its `en` text. The keys are
      grouped by their first letter (in table order within a group), so a
      lookup compares the key only against its own group. */
  function Texts(key: string): (r: Option<(string, string)>)
    ensures r.Some? ==> r.value.0 != "" && r.value.1 != ""
  {
    if key == [] then None
    else match key[0]
      case 'a' => TextsA(key)
      case 'b' => TextsB(key)
      case 'c' => TextsC(key)
      case 'd' => TextsD(key)
      case 'e' => TextsE(key)
      case 'g' => TextsG(key)
      case 'i' => TextsI(key)
      case 'l' => TextsL(key)
      case 'n' => TextsN(key)
      case 'o' => TextsO(key)
      case 'p' => TextsP(key)
      case 'r' => TextsR(key)
      case 's' => TextsS(key)
      case 'y' => TextsY(key)
      case _ => None
  }

  /** The keys that start with `a`. */
  function TextsA(key: string): (r: Option<(string, string)>)
    ensures r.Some? ==> r.value.0 != "" && r.value.1 != ""
  {
    match key
    case "appTitle" => Some(("Tally - 资源管理", "Tally - Resource Manager"))
    case "allGroups" => Some(("全部分组", "All Groups"))
    case "addResource" => Some(("添加资源", "Add Resource"))
    case "actions" => Some(("操作", "Actions"))
    case "addResourceTitle" => Some(("添加资源", "Add Resource"))
    case "adding" => Some(("添加中...", "Adding..."))
    case "appendMode" => Some(("追加模式", "Append Mode"))
    case "appendModeDesc" => Some(("保留现有资源，添加备份中的资源", "Keep existing resources, add resources from backup"))
    case "addFailed" => Some(("添加失败", "Add failed"))
    case _ => None
  }

  /** The keys that start with `b`. */
  function TextsB(key: string): (r: Option<(string, string)>)
    ensures r.Some? ==> r.value.0 != "" && r.value.1 != ""
  {
    match key
    case "backup" => Some(("备份", "Backup"))
    case "byDays" => Some(("按天", "By Days"))
    case "byYears" => Some(("按年", "By Years"))
    case "byDate" => Some(("指定日期", "By Date"))
    case "backupVersion" => Some(("备份版本:", "Backup version:"))
    case _ => None
  }

  /** The keys that start with `c`. */
  function TextsC(key: string): (r: Option<(string, string)>)
    ensures r.Some? ==> r.value.0 != "" && r.value.1 != ""
  {
    match key
    case "cancel" => Some(("取消", "Cancel"))
    case "confirm" => Some(("确认", "Confirm"))
    case "currentExpire" => Some(("当前到期:", "Current expiry:"))
    case "confirmRenew" => Some(("确认续约", "Confirm Renewal"))
    case "clickToSelect" => Some(("点击选择 JSON 备份文件", "Click to select JSON backup file"))
    case "confirmRestore" => Some(("确认还原", "Confirm Restore"))
    case "confirmDelete" => Some(("确定要删除这个资源吗？", "Are you sure you want to delete this resource?"))
    case _ => None
  }

  /** The keys that start with `d`. */
  function TextsD(key: string): (r: Option<(string, string)>)
    ensures r.Some? ==> r.value.0 != "" && r.value.1 != ""
  {
    match key
    case "daysRemaining" => Some(("天", "days"))
    case "daysRemainingShort" => Some(("剩{days}天", "{days}d left"))
    case "delete" => Some(("删除", "Delete"))
    case "datePlaceholder" => Some(("输入或粘贴日期...", "Enter or paste date..."))
    case "day" => Some(("天", "day"))
    case _ => None
  }

  /** The keys that start with `e`. */
  function TextsE(key: string): (r: Option<(string, string)>)
    ensures r.Some? ==> r.value.0 != "" && r.value.1 != ""
  {
    match key
    case "expired" => Some(("已过期", "Expired"))
    case "expireDate" => Some(("到期日期", "Expire Date"))
    case "edit" => Some(("编辑", "Edit"))
    case "expireDateLabel" => Some(("到期日期", "Expire Date"))
    case "editResourceTitle" => Some(("编辑资源", "Edit Resource"))
    case "exportTime" => Some(("导出时间:", "Export time:"))
    case "editFailed" => Some(("编辑失败", "Edit failed"))
    case _ => None
  }

  /** The keys that start with `g`. */
  function TextsG(key: string): (r: Option<(string, string)>)
    ensures r.Some? ==> r.value.0 != "" && r.value.1 != ""
  {
    match key
    case "globMode" => Some(("Glob 模式", "Glob mode"))
    case "group" => Some(("分组", "Group"))
    case "groupLabel" => Some(("分组", "Group"))
    case "groupPlaceholder" => Some(("输入或选择分组", "Enter or select group"))
    case _ => None
  }

  /** The keys that start with `i`. */
  function TextsI(key: string): (r: Option<(string, string)>)
    ensures r.Some? ==> r.value.0 != "" && r.value.1 != ""
  {
    match key
    case "invalidBackupFormat" => Some(("无效的备份文件格式", "Invalid backup file format"))
    case _ => None
  }

  /** The keys that start with `l`. */
  function TextsL(key: string): (r: Option<(string, string)>)
    ensures r.Some? ==> r.value.0 != "" && r.value.1 != ""
  {
    match key
    case "logout" => Some(("退出", "Logout"))
    case "loading" => Some(("加载中...", "Loading..."))
    case _ => None
  }

  /** The keys that start with `n`. */
  function TextsN(key: string): (r: Option<(string, string)>)
    ensures r.Some? ==> r.value.0 != "" && r.value.1 != ""
  {
    match key
    case "normalSearch" => Some(("普通搜索（支持拼音）", "Normal search (supports pinyin)"))
    case "noResources" => Some(("暂无资源，点击上方按钮添加", "No resources yet, click the button above to add"))
    case "noMatch" => Some(("没有匹配的资源", "No matching resources"))
    case "newExpireDate" => Some(("新到期日期", "New expire date"))
    case "naturalYearHint" => Some(("自然年续期保持月日不变", "Calendar year keeps month and day unchanged"))
    case _ => None
  }

  /** The keys that start with `o`. */
  function TextsO(key: string): (r: Option<(string, string)>)
    ensures r.Some? ==> r.value.0 != "" && r.value.1 != ""
  {
    match key
    case "overwriteMode" => Some(("覆盖模式", "Overwrite Mode"))
    case "overwriteModeDesc" => Some(("删除所有现有资源，仅保留备份中的资源", "Delete all existing resources, keep only backup resources"))
    case _ => None
  }

  /** The keys that start with `p`. */
  function TextsP(key: string): (r: Option<(string, string)>)
    ensures r.Some? ==> r.value.0 != "" && r.value.1 != ""
  {
    match key
    case "predictedExpire" => Some(("预计到期:", "Expected expiry:"))
    case "parseError" => Some(("无法解析备份文件", "Unable to parse backup file"))
    case _ => None
  }

  /** The keys that start with `r`. */
  function TextsR(key: string): (r: Option<(string, string)>)
    ensures r.Some? ==> r.value.0 != "" && r.value.1 != ""
  {
    match key
    case "restore" => Some(("还原", "Restore"))
    case "regexMode" => Some(("正则表达式", "Regular expression"))
    case "resourceName" => Some(("资源名称", "Resource Name"))
    case "remainingDays" => Some(("剩余天数", "Remaining"))
    case "renew" => Some(("续约", "Renew"))
    case "resourceNameLabel" => Some(("资源名称", "Resource Name"))
    case "resourceNamePlaceholder" => Some(("输入资源名称", "Enter resource name"))
    case "renewTitle" => Some(("续约资源", "Renew Resource"))
    case "renewingFor" => Some(("正在续约:", "Renewing:"))
    case "renewDays" => Some(("续期天数", "Renewal days"))
    case "renewYears" => Some(("续期年数（自然年）", "Renewal years (calendar)"))
    case "renewing" => Some(("续约中...", "Renewing..."))
    case "restoreTitle" => Some(("还原备份", "Restore Backup"))
    case "resourceCount" => Some(("包含 {count} 条资源", "Contains {count} resources"))
    case "restoreMode" => Some(("还原模式", "Restore Mode"))
    case "restoring" => Some(("还原中...", "Restoring..."))
    case "restoreSuccess" => Some(("还原成功！导入了 {count} 条资源", "Restore successful! Imported {count} resources"))
    case "readError" => Some(("读取文件失败", "Failed to read file"))
    case "renewFailed" => Some(("续约失败", "Renewal failed"))
    case "restoreFailed" => Some(("还原失败", "Restore failed"))
    case _ => None
  }

  /** The keys that start with `s`. */
  function TextsS(key: string): (r: Option<(string, string)>)
    ensures r.Some? ==> r.value.0 != "" && r.value.1 != ""
  {
    match key
    case "searchPlaceholder" => Some(("搜索（支持拼音）...", "Search (supports pinyin)..."))
    case "searchRegex" => Some(("正则表达式...", "Regular expression..."))
    case "searchGlob" => Some(("Glob 模式 (* ? 通配符)...", "Glob pattern (* ? wildcards)..."))
    case "save" => Some(("保存", "Save"))
    case "saving" => Some(("保存中...", "Saving..."))
    case "selectBackupFile" => Some(("选择备份文件", "Select Backup File"))
    case _ => None
  }

  /** The keys that start with `y`. */
  function TextsY(key: string): (r: Option<(string, string)>)
    ensures r.Some? ==> r.value.0 != "" && r.value.1 != ""
  {
    match key
    case "year" => Some(("年", "year"))
    case _ => None
  }

  /** `translations.zh[key]`. */
  function ZhText(key: string): Option<string> {
    match Texts(key)
    case Some((zh, _)) => Some(zh)
    case None => None
  }

  /** `translations.en[key]`. */
  function EnText(key: string): Option<string> {
    match Texts(key)
    case Some((_, en)) => Some(en)
    case None => None
  }

  /** `translations[locale][key]`. */
  function Table(locale: Locale, key: string): Option<string> {
    match locale
    case Zh => ZhText(key)
    case En => EnText(key)
  }

  /** A table entry as `||` sees it: absent and empty are both falsy. */
  predicate Truthy(entry: Option<string>) {
    entry.Some? && entry.value != ""
  }

  /** `translations[locale][key] || translations.zh[key] || key`. */
  function LookupText(locale: Locale, key: string): (text: string)
    ensures Truthy(Table(locale, key)) ==> text == Table(locale, key).value
    ensures !Truthy(Table(locale, key)) && Truthy(ZhText(key)) ==> text == ZhText(key).value
    ensures !Truthy(Table(locale, key)) && !Truthy(ZhText(key)) ==> text == key
  {
    if Truthy(Table(locale, key)) then Table(locale, key).value
    else if Truthy(ZhText(key)) then ZhText(key).value
    else key
  }

  /** A parameter value: `String(v)` of a string is the string itself and
      of an integer its decimal form. */
  datatype ParamValue = Text(s: string) | Number(n: int)

  function ParamString(v: ParamValue): string {
    match v
    case Text(s) => s
    case Number(n) => IntToDecimal(n)
  }

  /** The placeholder `{k}` a parameter named `k` fills. */
  function Placeholder(k: string): (p: string)
    ensures |p| == |k| + 2 && p[0] == '{' && p[|p| - 1] == '}'
  {
    "{" + k + "}"
  }

  /** The `forEach` over the entries of `params`, in entry order: each
      replaces the first occurrence of its placeholder in the text so far. */
  function ApplyParams(text: string, params: seq<(string, ParamValue)>): (r: string)
    decreases |params|
  {
    if |params| == 0 then text
    else ApplyParams(ReplaceFirst(text, Placeholder(params[0].0), ParamString(params[0].1)), params[1..])
  }

  /** `createTranslator(locale)(key, params)`; no `params` is the empty
      sequence. */
  function Translate(locale: Locale, key: string, params: seq<(string, ParamValue)>): (text: string)
    ensures params == [] ==> text == LookupText(locale, key)
  {
    ApplyParams(LookupText(locale, key), params)
  }

  /** Parameters are applied one after another: the last entry works on
      the text the earlier ones produced. */
  lemma {:induction false} ParamsInEntryOrder(text: string, params: seq<(string, ParamValue)>, k: string, v: ParamValue)
    ensures ApplyParams(text, params + [(k, v)])
            == ReplaceFirst(ApplyParams(text, params), Placeholder(k), ParamString(v))
    decreases |params|
  {
    if |params| == 0 {
      assert params + [(k, v)] == [(k, v)];
    } else {
      var next := ReplaceFirst(text, Placeholder(params[0].0), ParamString(params[0].1));
      assert (params + [(k, v)])[1..] == params[1..] + [(k, v)];
      ParamsInEntryOrder(next, params[1..], k, v);
    }
  }

  /** A parameter whose placeholder does not occur leaves the text as it
      is. */
  lemma AbsentPlaceholderKeepsText(text: string, k: string, v: ParamValue)
    requires forall j :: 0 <= j ==> !OccursAt(text, Placeholder(k), j)
    ensures ApplyParams(text, [(k, v)]) == text
  {
    ReplaceFirstSpec(text, Placeholder(k), ParamString(v));
  }

  /** Only the first occurrence of a placeholder is filled: a later one,
      in `post`, survives. */
  lemma FirstPlaceholderOnly(pre: string, k: string, post: string, v: ParamValue)
    requires '{' !in pre && '$' !in ParamString(v)
    ensures ApplyParams(pre + Placeholder(k) + post, [(k, v)]) == pre + ParamString(v) + post
  {
    ReplaceFirstAfter(pre, Placeholder(k), post, ParamString(v));
  }

  /** A key the tables define is looked up in the locale's own table; any
      other key is shown as it is. */
  lemma LookupNeverFallsBack(locale: Locale, key: string)
    ensures ZhText(key).Some? ==> LookupText(locale, key) == Table(locale, key).value
    ensures ZhText(key).None? ==> LookupText(locale, key) == key
  {
  }

  /** The `en` text of `resourceCount`. */
  lemma ResourceCountText()
    ensures LookupText(En, "resourceCount") == "Contains " + Placeholder("count") + " resources"
  {
    assert EnText("resourceCount") == Some("Contains {count} resources");
  }

  /** The `en` translator on `resourceCount` with any integer `count`. */
  lemma ResourceCountTranslation(n: int)
    ensures Translate(En, "resourceCount", [("count", Number(n))]) == "Contains " + IntToDecimal(n) + " resources"
  {
    ResourceCountText();
    IntToDecimalChars(n);
    assert '$' !in ParamString(Number(n));
    FirstPlaceholderOnly("Contains ", "count", " resources", Number(n));
  }

}
