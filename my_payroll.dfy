/** The employee's payroll page (client/src/components/employee/MyPayroll.tsx): the
    summary cards, the payslip text and the payslip's file name. */
module MyPayroll {
  import opened Text
  import opened Tally
  import opened Api

  /** The three cards: Total Salary, Paid Records, Pending Records. */
  datatype Totals = Totals(totalSalary: real, paidRecords: nat, pendingRecords: nat)

  /** Paid and pending are counted by exact status, so together they never exceed the
      rows shown; rows with any other status are in neither. */
  function Totalize(rows: seq<PayrollRecord>): (t: Totals)
    ensures t.totalSalary == Sum(rows, NetSalary)
    ensures rows == [] ==> t.totalSalary == 0.0 && t.paidRecords == 0 && t.pendingRecords == 0
    ensures t.paidRecords == Count(rows, IsPaid) && t.pendingRecords == Count(rows, IsPending)
    ensures t.paidRecords + t.pendingRecords <= |rows|
    ensures t.paidRecords + t.pendingRecords == |rows| ==>
              forall i :: 0 <= i < |rows| ==> rows[i].status == "paid" || rows[i].status == "pending"
  {
    CountDisjoint(rows, IsPaid, IsPending);
    CountUnion(rows, IsPaid, IsPending, IsPaidOrPending);
    CountAll(rows, IsPaidOrPending);
    Totals(Sum(rows, NetSalary), Count(rows, IsPaid), Count(rows, IsPending))
  }

  predicate IsPaidOrPending(r: PayrollRecord) {
    r.status == "paid" || r.status == "pending"
  }

  /** The lines of the payslip in their fixed order; `fmt` is the currency formatter.
      The line labelled "Employee" shows the payroll record's own id, not the employee id. */
  function PayslipLines(r: PayrollRecord, fmt: real -> string): (lines: seq<string>)
    ensures |lines| == 8 && lines[0] == "PAYSLIP"
    ensures lines[1] == "Employee: " + NatToString(r.id)
    ensures lines[2] == "Month: " + IntToString(r.month) + "/" + IntToString(r.year)
    ensures lines[3] == "Basic Salary: " + fmt(r.basicSalary) && lines[4] == "Allowances: " + fmt(r.allowances)
    ensures lines[5] == "Deductions: " + fmt(r.deductions) && lines[6] == "Net Salary: " + fmt(r.netSalary)
    ensures lines[7] == "Status: " + r.status
  {
    ["PAYSLIP",
     "Employee: " + NatToString(r.id),
     "Month: " + IntToString(r.month) + "/" + IntToString(r.year),
     "Basic Salary: " + fmt(r.basicSalary),
     "Allowances: " + fmt(r.allowances),
     "Deductions: " + fmt(r.deductions),
     "Net Salary: " + fmt(r.netSalary),
     "Status: " + r.status]
  }

  /** `handleDownloadPayslip`'s text: the template literal, which opens with a newline and
      closes with a newline and four spaces, trimmed. */
  function Payslip(r: PayrollRecord, fmt: real -> string): string {
    Trim("\n" + Join(PayslipLines(r, fmt), "\n") + "\n    ")
  }

  /** The lines joined: the first seven, a newline, then the status line. */
  lemma PayslipBody(r: PayrollRecord, fmt: real -> string)
    ensures var lines := PayslipLines(r, fmt);
            var body := Join(lines, "\n");
            body == Join(lines[..7], "\n") + "\n" + lines[7] && body[0] == 'P'
  {
    var lines := PayslipLines(r, fmt);
    assert lines == lines[..7] + [lines[7]];
    JoinSnoc(lines[..7], lines[7], "\n");
    assert Join(lines, "\n") == lines[0] + "\n" + Join(lines[1..], "\n");
  }

  /** With a status that does not end in white space, the trim only removes the
      template's padding: the payslip is exactly its lines joined by newlines. */
  lemma PayslipIsItsLines(r: PayrollRecord, fmt: real -> string)
    requires r.status != "" && !IsJsSpace(r.status[|r.status| - 1])
    ensures Payslip(r, fmt) == Join(PayslipLines(r, fmt), "\n")
  {
    var lines := PayslipLines(r, fmt);
    var body := Join(lines, "\n");
    PayslipBody(r, fmt);
    assert body[|body| - 1] == r.status[|r.status| - 1];
    TrimPadded("\n", body, "\n    ");
  }

  /** When neither the formatter nor the status produces a newline, splitting the payslip
      on newlines gives back its eight lines in order. */
  lemma PayslipReadsBack(r: PayrollRecord, fmt: real -> string)
    requires r.status != "" && !IsJsSpace(r.status[|r.status| - 1]) && '\n' !in r.status
    requires forall x: real :: '\n' !in fmt(x)
    ensures Split(Payslip(r, fmt), '\n') == PayslipLines(r, fmt)
  {
    PayslipIsItsLines(r, fmt);
    PayslipLinesHaveNoNewline(r, fmt);
    SplitJoin(PayslipLines(r, fmt), '\n');
  }

  lemma PayslipLinesHaveNoNewline(r: PayrollRecord, fmt: real -> string)
    requires '\n' !in r.status
    requires forall x: real :: '\n' !in fmt(x)
    ensures forall k :: 0 <= k < 8 ==> '\n' !in PayslipLines(r, fmt)[k]
  {
    var lines := PayslipLines(r, fmt);
    forall k | 0 <= k < 8 ensures '\n' !in lines[k] {
      if k == 1 {
        NoNewline("Employee: ", NatToString(r.id), "");
        assert lines[1] == "Employee: " + NatToString(r.id) + "";
      } else if k == 2 {
        NoNewline("Month: ", IntToString(r.month), "/");
        NoNewline("Month: " + IntToString(r.month) + "/", IntToString(r.year), "");
        assert lines[2] == ("Month: " + IntToString(r.month) + "/") + IntToString(r.year) + "";
      } else if k == 3 {
        LabelledNoNewline("Basic Salary: ", fmt(r.basicSalary));
      } else if k == 4 {
        LabelledNoNewline("Allowances: ", fmt(r.allowances));
      } else if k == 5 {
        LabelledNoNewline("Deductions: ", fmt(r.deductions));
      } else if k == 6 {
        LabelledNoNewline("Net Salary: ", fmt(r.netSalary));
      } else if k == 7 {
        LabelledNoNewline("Status: ", r.status);
      }
    }
  }

  lemma LabelledNoNewline(caption: string, value: string)
    requires '\n' !in caption && '\n' !in value
    ensures '\n' !in caption + value
  {
  }

  lemma NoNewline(pre: string, num: string, post: string)
    requires '\n' !in pre && '\n' !in post
    requires forall j :: 0 <= j < |num| ==> IsDigit(num[j]) || num[j] == '-'
    ensures '\n' !in pre + num + post
  {
  }

  /** An empty status leaves the last line as 'Status: ', whose trailing space the trim
      removes. */
  lemma EmptyStatusLosesTrailingSpace(r: PayrollRecord, fmt: real -> string)
    requires r.status == ""
    ensures Payslip(r, fmt) == Join(PayslipLines(r, fmt)[..7], "\n") + "\nStatus:"
  {
    var lines := PayslipLines(r, fmt);
    PayslipBody(r, fmt);
    var body := Join(lines[..7], "\n") + "\nStatus:";
    assert "\n" + Join(lines, "\n") + "\n    " == "\n" + body + " \n    ";
    TrimPadded("\n", body, " \n    ");
  }

  /** `payslip_${record.year}_${record.month}.txt`. */
  function PayslipFileName(r: PayrollRecord): string {
    "payslip_" + IntToString(r.year) + "_" + IntToString(r.month) + ".txt"
  }

  /** The file name splits on '_' into the prefix, the year and the month with the
      extension. */
  lemma PayslipFileNameFields(r: PayrollRecord)
    ensures Split(PayslipFileName(r), '_') == ["payslip", IntToString(r.year), IntToString(r.month) + ".txt"]
  {
    var y := IntToString(r.year);
    var m := IntToString(r.month) + ".txt";
    assert PayslipFileName(r) == "payslip" + ['_'] + (y + ['_'] + m);
    assert '_' !in y;
    assert '_' !in m;
    SplitAfterField("payslip", '_', y + ['_'] + m);
    SplitAfterField(y, '_', m);
    SplitNoSeparator(m, '_');
  }

  /** Payslips of different periods download under different names. */
  lemma PayslipFileNameInjective(a: PayrollRecord, b: PayrollRecord)
    requires PayslipFileName(a) == PayslipFileName(b)
    ensures a.year == b.year && a.month == b.month
  {
    PayslipFileNameFields(a);
    PayslipFileNameFields(b);
    IntToStringInjective(a.year, b.year);
    var ma := IntToString(a.month);
    var mb := IntToString(b.month);
    assert ma == (ma + ".txt")[..|ma + ".txt"| - 4];
    assert mb == (mb + ".txt")[..|mb + ".txt"| - 4];
    IntToStringInjective(a.month, b.month);
  }
}
